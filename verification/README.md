# Verified model of TecnicoFS, its request queue and the message broker

This project models three parts of the repository and proves what they promise.

**The file system** (`fs/state.c`, `fs/operations.c`) is modelled three times. `FileSystem` is a
class with the source's tables as arrays, one flat byte array for all blocks, and one method per C
function. `FsTables` gives the same operations as functions on values. `AbstractFs` is the file
system its users see: names, nodes with bytes or a link target, handles with offsets. `FsSteps`,
`FsRefinement` and `FsRuns` prove that every call, on every path through it, acts on the tables as
the abstract call does, and that this holds over every run. `Directory` handles the directory block
down to its bytes, `DirectoryRuns` any sequence of its locked sections, `LinkChains` the chains of symbolic links, `FsLosses` what calls lose for good;
`FsMeaning` what calls mean in terms of the bytes of paths and contents; `FsTypes` holds the
vocabulary they share.

**Concurrency.** `LinkProtocol` is a step model of link, unlink and close by any number of threads, and
`LinkCalls` says what each of these calls achieves, alone and among others.
`QueueThreads` is a step model of the producer-consumer queue with spurious wakeups, over the ring
of `Queue`, and `QueueCalls` accounts for every call. `LockOrder` gives the nested lock sections of every operation and handler and proves
deadlock freedom for any mix of them.

**The broker** (`mbroker/mbroker.c`) appears as sessions in `BrokerSessions` (admission, waiting,
locking), with what each request achieves in `BrokerCalls`, what sessions deliver in `BrokerDelivery`
and the states in which they fail in `BrokerRaces`, as a client of the abstract file system in `BrokerFiles` (index, handles, whole frames), as
the box table and its listing in `BoxTable` and `Listing` (with `manager/manager.c` and
`utils/insertion-sort.c`), and as a decoder of the register pipe in `Protocol`.

`dafny verify dfyconfig.toml` checks the whole project.

## What turned out false of the code

- `tfs_open` does not return on every path: `tfs_sym_link` accepts two links to each other
  (`FsLosses.CycleIsAccepted`), and following them never ends. It returns exactly when `Terminates`
  holds, which looks at no more hops than there are links (`LinkChains.TerminatesIff`).
- Symbolic links lose their block when removed, because their size is 0 (`FsLosses.LinkLosesItsBlock`).
  Unlinking a symbolic link, or being refused one after its block was taken, are the only calls that
  lose one; `FsLosses.FreshAccounting` counts them exactly.
- `workers_handle_sub_register` returns with the box mutex held when the name it found is gone by the
  time it opens it (`BrokerRaces.LeakReached`; exactly then: `BrokerSessions.LeaksIff`). In every run
  nobody ever locks that box again (`BrokerSessions.LeakedForGood`, `LockOrder.LeakedForGood`); a holder
  that is not about to leak frees it by at most three steps of its own (`BrokerSessions.HolderReleases`).
  A remove request for that box then waits inside `free_boxes_lock` for ever, and no request that looks
  at the boxes gets any further (`LockOrder.RemoveBlocksAll`, `LockOrder.StuckForGood`).
- Finding a box and opening its file are separate steps, and the box may move to another slot in
  between. A publisher that opens it then is counted on the old slot, so a second one is admitted to the
  same file and overwrites its message (`BrokerRaces.TwoWriters`). A subscriber that opens it then waits
  on the old slot and sleeps through announced messages (`BrokerRaces.SleepsThrough`).
- A slot freed and taken again between a subscriber's two tests of it makes the subscriber send its old
  message twice (`BrokerRaces.SentTwice`).
- In the step model, where opening a file is one step and creators of one name do not race, these are the
  only ways delivery fails, and `BrokerDelivery.EveryRunIsExact` excludes no run. On a file with no message
  overwritten a session puts out exactly what it read, a prefix of what was written, if and only if it
  never passed a slot taken anew. A file loses exactly as many messages as are written behind its end
  (`BrokerDelivery.OnlyAppends`); that needs two writers at once (`BrokerDelivery.RunShares`), and those
  need a publisher that strayed (`BrokerDelivery.RunStrays`); a stray publisher that is the one writer loses
  nothing, but broadcasts on its own slot. A sleeper read every message broadcast on its slot, so once
  nobody is about to broadcast it misses one only if the last broadcast went to another slot.
- The manager drops the last box of a listing if its name is empty after the slash
  (`Listing.ListingIsExact`); no such box can be created, since the file system refuses the path.

## Model

| member | source | states |
|---|---|---|
| `Bytes.StrTerminated` | fs/operations.c:212 | a string copied with its terminator reads back whatever follows it |
| `Directory.Int32RoundTrip` | fs/state.c:391 | an inumber stored in an entry as 32-bit little-endian two's complement reads back, including -1 |
| `Directory.SetNameEffect` | fs/state.c:392-393 | writing the name bytes of an entry changes that entry's name and no other field of any entry |
| `Directory.SetInumEffect` | fs/state.c:391 | writing the inumber bytes of an entry changes that inumber and nothing else |
| `Directory.IndexInUse` | fs/state.c:483-490 | the scan returns the first used entry of that name, or none is in use |
| `Directory.IndexByName` | fs/state.c:436-443 | the scan returns the first entry of that name whether used or not |
| `Directory.FreeIndex` | fs/state.c:389-397 | the first free entry, or every entry is used |
| `Directory.FindAgrees` | fs/state.c:462-494 | in a well-formed directory both scans agree with the finite map of names |
| `Directory.AddBinding` | fs/state.c:378-397 | filling a free slot under a new name keeps names unique and adds exactly one binding |
| `Directory.RemoveBinding` | fs/state.c:435-443 | clearing a used slot keeps free slots nameless and removes exactly its binding |
| `Directory.AddCount` | fs/state.c:389-396 | an added entry raises the number of entries of its inode by one and of no other |
| `Directory.RemoveCount` | fs/state.c:436-442 | a cleared entry lowers the number of entries of its inode by one and of no other |
| `Directory.EntriesAreNames` | fs/state.c:483-490 | an inode has entries exactly when some name is bound to it |
| `Directory.FullIffCount` | fs/state.c:388-400 | there is no free entry exactly when as many names are bound as there are entries |
| `DirectoryRuns.RunAgrees` | fs/state.c:378-446 | one locked section of add, clear or find gives the new map and result of a finite map with that capacity |
| `DirectoryRuns.EverySequence` | fs/state.c:359-494 | for any sequence of these sections from an empty directory names stay unique, free slots nameless, and all results are those of a finite map |
| `DirectoryRuns.BlockAgrees` | fs/state.c:359-494 | the sections on the bytes of the directory block are these sections on its slots |
| `FsTables.FirstFree` | fs/state.c:211-224 | the allocators' scan: the first free index, or everything is taken |
| `AbstractFs.LeastFree` | fs/state.c:579-591 | the least number not in use within the table, or none |
| `FsSteps.NewFileStep` | fs/state.c:247-295 | creating a file inode keeps the table invariant and adds one empty node |
| `FsSteps.NewLinkStep` | fs/operations.c:188-212 | a link inode with its block keeps block ownership and adds one node with that target |
| `FsSteps.BindStep` | fs/state.c:388-396 | adding an entry and counting it binds one name and changes no content, handle or block |
| `FsSteps.UnbindStep` | fs/operations.c:290-299 | clearing an entry and uncounting it removes one name and changes nothing else |
| `FsSteps.TruncateStep` | fs/operations.c:128-134 | truncation empties that file, frees its block although the block number stays behind, and touches no other node |
| `FsSteps.WriteOldStep` | fs/state.c:697-707 | copying into an owned block changes the bytes of that file only |
| `FsSteps.WriteNewStep` | fs/state.c:684-707 | the first write takes a block nobody owns and changes that file only |
| `FsSteps.DeleteStep` | fs/state.c:303-325 | deleting an unreferenced inode removes exactly its node; a file's block is freed, a link's is lost |
| `FsSteps.ReferencedIff` | fs/operations.c:300 | count zero and no open entry together mean that no name and no handle is left |
| `FsSteps.ReapStep` | fs/state.c:635-640 | the reaping test and delete do what collecting an unreferenced node means |
| `FsSteps.LeakStep` | fs/operations.c:201-222 | the block of a refused link stays TAKEN and is counted as lost |
| `FsRefinement.FreeInodeAgrees` | fs/state.c:209-228 | the inode the scan finds is the least unused node number, never the root |
| `FsRefinement.FreeHandleAgrees` | fs/state.c:578-594 | the handle the scan finds is the least one not open |
| `FsRefinement.OwnersCount` | fs/state.c:504-538 | distinct owners have distinct blocks |
| `FsRefinement.BlockAccounting` | fs/state.c:504-538 | the TAKEN blocks are the root's, one for each link and non-empty file, and the lost ones |
| `FsRefinement.BlocksAgree` | fs/state.c:504-521 | the block scan fails exactly when every block is so accounted for |
| `FsRefinement.BindAgrees` | fs/state.c:359-401 | an entry is added exactly when the name is valid, new and the directory not full |
| `FsRefinement.FindAgreesPath` | fs/operations.c:78-92 | looking up a path finds the node its name is bound to |
| `FsRefinement.AddHandleStep` | fs/state.c:569-595 | opening a live inode adds the least free handle, or refuses when the table is full |
| `FsRefinement.CloseStep` | fs/state.c:605-645 | closing removes the handle and reaps the node if that was the last reference |
| `FsRefinement.CreateStep` | fs/operations.c:143-155 | inode and entry together add one empty named file |
| `FsRefinement.UncreateStep` | fs/operations.c:150-154 | a create whose entry is refused leaves the file system as it was |
| `FsRefinement.OpenHereStep` | fs/operations.c:94-168 | one round of open on a path that is no link acts as the abstract open, with truncation, append, creation and every refusal |
| `FsRefinement.WriteStep` | fs/state.c:657-713 | a write through a handle acts as the abstract write, including the clamped offset, the partial write and no space |
| `FsRefinement.ReadStep` | fs/state.c:725-766 | a read returns the file's bytes at the clamped offset and advances the handle by their number |
| `FsRefinement.SymLinkStep` | fs/operations.c:180-226 | a symbolic link acts as the abstract one on every path, including the block lost on refusal |
| `FsRefinement.LinkRefused` | fs/operations.c:245-256 | a hard link refused on a symbolic link restores every directory entry |
| `FsRefinement.LinkStep` | fs/operations.c:228-263 | a hard link acts as the abstract one and counts its entry |
| `FsRefinement.UnlinkStep` | fs/operations.c:265-310 | an unlink removes the name and reaps the node if nothing else refers to it |
| `LinkChains.Pigeonhole` | fs/operations.c:119-126 | no link is met twice on a chain that ends, so it has at most as many hops as there are links |
| `LinkChains.HopBound` | fs/operations.c:119-126 | a chain that ends does so within the number of links, at one well-defined destination |
| `LinkChains.TerminatesIff` | fs/operations.c:119-126 | following links ends after some number of hops exactly when the bounded test says so |
| `LinkChains.CycleNeverEnds` | fs/operations.c:119-126 | two links to each other never resolve, however many hops are taken |
| `FsRuns.ResolvesAgrees` | fs/operations.c:106-126 | the recursion on stored targets ends within k calls exactly when the abstract chain does |
| `FsRuns.OpenFollows` | fs/operations.c:94-168 | opening through links gives the same tables and result as opening the final name directly |
| `FsRuns.OpenStep` | fs/operations.c:94-168 | open acts as the abstract open of the destination, also when it creates a dangling target |
| `FsRuns.CallRefines` | fs/operations.c:94-310 | every call from every reachable state keeps the invariant, returns the abstract result and has the abstract effect |
| `FsRuns.RunRefines` | fs/operations.c:94-310 | every run of calls returns, call by call, what the abstract run returns and ends in its state |
| `FsRuns.Reclamation` | fs/state.c:303-325 | an inode is TAKEN exactly when it is the root, is named or is open; link counts equal entries |
| `FsRuns.RunReclaims` | fs/state.c:605-645 | reclamation is exact after every run |
| `FsRuns.CallLosses` | fs/state.c:315-319 | a call loses one block exactly in the listed cases, and otherwise none |
| `FsRuns.RunAccounting` | fs/operations.c:201-222 | after every run the TAKEN blocks are exactly the owned ones plus one for each losing call |
| `FsRuns.NoLinksNoLoss` | fs/state.c:504-538 | runs without symbolic links lose nothing |
| `FsLosses.CallSimple` | fs/operations.c:94-310 | every call keeps symbolic links unopened and with at most one name |
| `FsLosses.LinkHasOneName` | fs/operations.c:249-256 | after every run a symbolic link is open nowhere and has exactly one name |
| `FsLosses.LosesOnlyLinks` | fs/state.c:315-319 | a call loses a block exactly when it unlinks a symbolic link or is refused one after its block was taken |
| `FsLosses.FreshAccounting` | fs/operations.c:201-222 | after every run from a fresh file system the TAKEN blocks are the owned ones plus one for each such call |
| `FsLosses.CycleIsAccepted` | fs/operations.c:183-184 | on any fresh file system with room, two links to each other both return 0 and then neither path has an end |
| `FsLosses.LinkLosesItsBlock` | fs/state.c:315-319 | a link made and unlinked leaves an empty file system with one lost block |
| `FsRuns.WriteTouchesOneFile` | fs/state.c:673-707 | a write stores exactly min(length, room) bytes at the offset of one file and changes no other byte, file, target or name |
| `FsMeaning.ReachableIsOrdinary` | fs/state.c:359-401 | in every reachable file system names have 1 to 39 bytes and lead to nodes |
| `FsMeaning.CreateIff` | fs/operations.c:94-168 | where there is room, a new path is created and opened exactly when it is a slash and a name of 1 to 39 bytes |
| `FsMeaning.OpenExisting` | fs/operations.c:128-138 | a path that names a file is opened at its beginning, or at its end to append |
| `FsMeaning.SymLinkIff` | fs/operations.c:180-226 | where there is room, a link is made exactly when both paths have two bytes and a slash, differ, and the link's name fits |
| `FsMeaning.HardLinkIff` | fs/operations.c:228-263 | a hard link is made exactly when its target names a file and its name fits; both then name that file |
| `FsMeaning.UnlinkIff` | fs/operations.c:265-310 | a path is unlinked exactly when it starts with a slash and its name is in the directory |
| `FsMeaning.ReadAfterWrite` | fs/state.c:657-766 | as much is written as fits the block, and another handle at the same place reads just that |
| `FsMeaning.AppendAfterOpen` | fs/operations.c:135-138 | a file opened to append grows by what is written |
| `FsMeaning.TruncateEmpties` | fs/operations.c:128-134 | a file opened with truncation is empty |
| `FileSystem.SpliceBlock` | fs/state.c:548-555 | a copy into one block of the flat byte array changes that block and no other |
| `FileSystem.TecnicoFs.constructor` | fs/state.c:108-150 | fresh tables with nothing taken |
| `FileSystem.TecnicoFs.Mount` | fs/operations.c:36-58 | creating the root gives a valid, empty file system, and fails exactly without an inode or a block |
| `FileSystem.TecnicoFs.InodeAlloc` | fs/state.c:209-228 | takes the first free inode |
| `FileSystem.TecnicoFs.DataBlockAlloc` | fs/state.c:504-521 | takes the first free block |
| `FileSystem.TecnicoFs.InodeCreate` | fs/state.c:247-295 | the in-place update equals the specified one |
| `FileSystem.TecnicoFs.DataBlockFree` | fs/state.c:529-538 | frees that block; its caller must show the block number valid |
| `FileSystem.TecnicoFs.InodeDelete` | fs/state.c:303-325 | the in-place update equals the specified one; its callers must show the panics cannot fire |
| `FileSystem.TecnicoFs.FindInDir` | fs/state.c:462-494 | the loop over raw entries computes the specified lookup |
| `FileSystem.TecnicoFs.AddDirEntry` | fs/state.c:359-401 | the two loops over raw entries add exactly the specified entry or none |
| `FileSystem.TecnicoFs.ClearDirEntry` | fs/state.c:416-447 | the loop clears exactly the specified entry or none |
| `FileSystem.TecnicoFs.Lookup` | fs/operations.c:78-92 | path lookup in the root directory |
| `FileSystem.TecnicoFs.IsFileOpen` | fs/state.c:795-808 | true exactly when some taken entry refers to the inode |
| `FileSystem.TecnicoFs.AddToOpenFileTable` | fs/state.c:569-595 | the first free entry gets inode and offset, or -1 |
| `FileSystem.TecnicoFs.TruncateFile` | fs/operations.c:128-134 | frees the block of a non-empty file and zeroes its size |
| `FileSystem.TecnicoFs.OpenPath` | fs/operations.c:94-168 | the recursive open equals the specified one whenever the chain of links ends |
| `FileSystem.TecnicoFs.RemoveFromOpenFileTable` | fs/state.c:605-645 | equals the specified close; none of its asserts can fire |
| `FileSystem.TecnicoFs.WriteToOpenFile` | fs/state.c:657-713 | equals the specified write on the flat byte array |
| `FileSystem.TecnicoFs.ReadFromOpenFile` | fs/state.c:725-766 | equals the specified read |
| `FileSystem.TecnicoFs.MakeSymLink` | fs/operations.c:180-226 | equals the specified symbolic link on every path |
| `FileSystem.TecnicoFs.MakeLink` | fs/operations.c:228-263 | equals the specified hard link on every path |
| `FileSystem.TecnicoFs.RemoveLink` | fs/operations.c:265-310 | equals the specified unlink on every path |
| `FileSystem.TecnicoFs.Open` | fs/operations.c:94-168 | the class acts as the abstract open and stays valid |
| `FileSystem.TecnicoFs.Close` | fs/operations.c:170 | the class acts as the abstract close and stays valid |
| `FileSystem.TecnicoFs.Write` | fs/operations.c:172-174 | the class acts as the abstract write and stays valid |
| `FileSystem.TecnicoFs.Read` | fs/operations.c:176-178 | the class acts as the abstract read and stays valid |
| `FileSystem.TecnicoFs.SymLink` | fs/operations.c:180-226 | the class acts as the abstract symbolic link and stays valid |
| `FileSystem.TecnicoFs.Link` | fs/operations.c:228-263 | the class acts as the abstract hard link and stays valid |
| `FileSystem.TecnicoFs.Unlink` | fs/operations.c:265-310 | the class acts as the abstract unlink and stays valid |
| `LinkProtocol.FoundIsCounted` | fs/operations.c:234-247 | a name a linker finds belongs to an inode whose count is already positive |
| `LinkProtocol.ClearedIsCounted` | fs/operations.c:290-299 | an unlink past its clear never lowers a count of zero |
| `LinkProtocol.DeleteIsSafe` | fs/operations.c:294-307 | a thread about to delete an inode finds it TAKEN, unnamed, not open, not used by any call in flight and not being deleted by another |
| `LinkProtocol.StepInv` | fs/operations.c:228-310 | every step of link, unlink or close keeps the invariant, including entries equal to count plus links to be counted minus unlinks to be uncounted |
| `LinkProtocol.DeleteAtMostOnce` | fs/state.c:611-642 | in every interleaving an inode is deleted at most once, never while referred to, and one without references has a thread about to delete it |
| `LinkProtocol.QuietIsExact` | fs/operations.c:294-307 | once all calls returned, an inode survives exactly if named or open, and was otherwise deleted exactly once |
| `LinkProtocol.WriterSeesExactCounts` | fs/operations.c:271-293 | an unlinker that holds link_lock sees counts equal to entries for every inode |
| `LinkProtocol.NoPanic` | fs/state.c:613-621 | no assert on freed inodes or handles fires in any interleaving, and no count wraps |
| `LinkCalls.AloneIsAbstract` | fs/operations.c:228-310 | a link, unlink or close that runs alone from a quiet state returns and leaves the names, inodes, handles and counts that the abstract file system has after it |
| `LinkCalls.UnlinkReturns` | fs/operations.c:271-307 | in every interleaving an unlink whose path is bound when it holds link_lock has removed that binding when it releases it |
| `LinkCalls.CloseReturns` | fs/state.c:611-644 | in every interleaving a close has freed its handle when it releases the table |
| `LinkCalls.LinkReturns` | fs/operations.c:234-262 | in every interleaving a link to a file has bound its name to that file when it returns, unless the directory refused the name when the link came to add it |
| `LinkCalls.SomeStep` | fs/operations.c:234-307 | as long as a call is in flight some call can step |
| `LinkCalls.WaitsFor` | fs/operations.c:234-294 | a call that cannot step waits for link_lock or the table and another call holds it; links do not wait for each other |
| `LinkCalls.EveryCallReturns` | fs/operations.c:228-310 | every schedule of begun calls ends, and it rests only where every call has returned |
| `LockOrder.InodeDelete` | fs/state.c:310-324 | its nested locks respect the order |
| `LockOrder.AddHandle` | fs/state.c:575-592 | on each branch its nested locks respect the order |
| `LockOrder.Open` | fs/operations.c:105-163 | on each branch its nested locks respect the order |
| `LockOrder.FollowLinks` | fs/operations.c:105-125 | the rounds of open that find links respect the order |
| `LockOrder.Close` | fs/state.c:611-642 | on each branch its nested locks respect the order |
| `LockOrder.Write` | fs/state.c:666-710 | on each branch its nested locks respect the order |
| `LockOrder.Read` | fs/state.c:734-763 | its nested locks respect the order |
| `LockOrder.SymLink` | fs/operations.c:188-223 | on each branch its nested locks respect the order |
| `LockOrder.Link` | fs/operations.c:234-260 | on each branch its nested locks respect the order |
| `LockOrder.Unlink` | fs/operations.c:271-307 | on each branch its nested locks respect the order |
| `LockOrder.PubRegister` | mbroker/mbroker.c:275-336 | on each branch and after any number of rounds the handler's locks respect the order |
| `LockOrder.SubRegister` | mbroker/mbroker.c:347-410 | for any number of waits and reads the handler's locks respect the order |
| `LockOrder.Leave` | mbroker/mbroker.c:333-337 | the end of a session, also when its close deletes the file, respects the order |
| `LockOrder.CreateBox` | mbroker/mbroker.c:430-437 | on each branch the handler's locks respect the order |
| `LockOrder.RemoveBox` | mbroker/mbroker.c:467-468 | on each branch the handler's locks respect the order |
| `LockOrder.ListBoxes` | mbroker/mbroker.c:504-542 | for any boxes the handler's locks respect the order |
| `LockOrder.Sections` | mbroker/mbroker.c:235-267 | the sections of every public call and every request handler, on each branch, respect the order |
| `LockOrder.LastUnlinkTakes` | fs/operations.c:271-307 | where an unlink deletes: link_lock for writing, the directory, the table of open files, the inode, the inode table, and the block table if it had a block |
| `LockOrder.UnlinkTakes` | fs/operations.c:271-307 | exactly the locks of an unlink that deletes nothing, link_lock for writing |
| `LockOrder.LinkTakes` | fs/operations.c:234-260 | exactly the locks of a link, link_lock for reading |
| `LockOrder.SymLinkTakes` | fs/operations.c:188-223 | exactly the locks of a symbolic link, link_lock for reading |
| `LockOrder.CloseTakes` | fs/state.c:611-642 | exactly the locks of a close, with and without deletion |
| `LockOrder.TransferTakes` | fs/state.c:666-763 | exactly the locks of reads, which share the inode, and writes, which do not |
| `LockOrder.OpenTakes` | fs/operations.c:105-163 | exactly the locks of an open that finds or creates its file |
| `LockOrder.RemoveTakes` | mbroker/mbroker.c:575-586 | exactly the locks of a remove request, free_boxes_lock for writing |
| `LockOrder.ListTakes` | mbroker/mbroker.c:504-542 | exactly the locks of a listing, free_boxes_lock for reading and every box |
| `LockOrder.FlattenDisciplined` | fs/operations.c:105-163 | ordered sections run as actions only ever acquire above what is held, and release everything |
| `LockOrder.NoDeadlock` | fs/operations.c:188-307 | in every reachable state of any mix of these calls, with readers and writers and no failing subscriber, some unfinished thread can go on |
| `LockOrder.SectionsRestore` | fs/operations.c:105-163 | sections give back every lock they take |
| `LockOrder.CallReleases` | mbroker/mbroker.c:352-362 | every call ends with nothing held, except a failing subscriber, which keeps its box mutex |
| `LockOrder.LeakReached` | mbroker/mbroker.c:358-361 | from idle threads a failing subscriber request leads to a thread that is done and holds its box |
| `LockOrder.LeakedForGood` | mbroker/mbroker.c:358-361 | in every run, whatever calls anybody starts, the lock left behind stays held and nobody who asks for it, the holder included, gets it |
| `LockOrder.RemoveBlocksAll` | mbroker/mbroker.c:575-581 | a remove request for a leaked box comes to wait for its mutex with free_boxes_lock held |
| `LockOrder.StuckForGood` | mbroker/mbroker.c:575-581 | who waits for a leaked lock waits in every run, and nobody ever gets what it holds |
| `Queue.PutAppends` | producer-consumer/producer-consumer.c:82-85 | the tail section appends to the contents read from head, up to a full ring |
| `Queue.TakeRemoves` | producer-consumer/producer-consumer.c:112-115 | the head section removes the oldest element, also from a full ring |
| `Queue.PcQueue.Create` | producer-consumer/producer-consumer.c:13-43 | refuses capacity 0, otherwise an empty queue |
| `Queue.PcQueue.Enqueue` | producer-consumer/producer-consumer.c:82-87 | appends to the queue's contents |
| `Queue.PcQueue.Dequeue` | producer-consumer/producer-consumer.c:112-125 | removes and returns the first of the queue's contents |
| `QueueThreads.StepInv` | producer-consumer/producer-consumer.c:68-126 | every step keeps mutual exclusion, first-in-first-out order and both wakeup conditions |
| `QueueThreads.EveryRun` | producer-consumer/producer-consumer.c:68-126 | in every interleaving what was enqueued is what was dequeued followed by the ring from head, and items are at most the pending signals and rechecks if anyone waits |
| `QueueThreads.Progress` | producer-consumer/producer-consumer.c:74-93 | as long as some thread is active a step other than a spurious wakeup is enabled |
| `QueueThreads.RestIsJustified` | producer-consumer/producer-consumer.c:76-80 | at rest consumers sleep only on an empty queue and producers only on a full one, never both |
| `QueueThreads.WorkDecreases` | producer-consumer/producer-consumer.c:68-126 | every step without new calls and spurious wakeups lowers a bound |
| `QueueThreads.ComesToRest` | producer-consumer/producer-consumer.c:68-126 | every schedule comes to rest within that bound, and only with nobody active |
| `QueueCalls.EveryCallCounts` | producer-consumer/producer-consumer.c:68-126 | in every interleaving each element was offered as often as it was pushed plus the calls still to store it, as many were popped as calls asked for less those still to take one, and each was popped as often as calls returned it plus those about to |
| `QueueCalls.AllReturned` | producer-consumer/producer-consumer.c:68-126 | once every call returned, everything offered was pushed and everything popped was returned |
| `QueueCalls.WaitsFor` | producer-consumer/producer-consumer.c:74-93 | a call that neither sleeps nor can step wants one lock that another thread holds |
| `QueueCalls.FirstTest` | producer-consumer/producer-consumer.c:74-76 | a call tests its condition under both locks and counts as rechecking only after it slept |
| `BrokerSessions.StepCounter` | mbroker/mbroker.c:280-297 | n_publishers moves exactly when a session starts or stops counting, and starts only from 0 |
| `BrokerSessions.StepAlways` | mbroker/mbroker.c:280-336 | every step, whatever happens to slots, keeps the count of publishers and sleepers on slots in use |
| `BrokerSessions.EveryRunAdmitsOne` | mbroker/mbroker.c:280-336 | in every run, with slots freed and taken again, n_publishers is the number of live publisher sessions and at most 1, sleepers sleep on slots in use, and two writers of one file are counted on different slots |
| `BrokerSessions.StepExclusive` | mbroker/mbroker.c:279-293 | no slot is locked by two threads |
| `BrokerSessions.LeaksIff` | mbroker/mbroker.c:357-362 | a session leaks its slot exactly by opening for a subscriber a name that is gone |
| `BrokerSessions.LeakedForGood` | mbroker/mbroker.c:358-361 | after a leak, in every run, no step that locks the slot is ever enabled again |
| `BrokerSessions.HolderReleases` | mbroker/mbroker.c:376-382 | every holder that has not leaked and is not about to frees its slot by at most three steps of its own |
| `BrokerCalls.SubEndsIff` | mbroker/mbroker.c:383-404 | a subscriber session ends exactly because its client hung up or because it tested its slot again and found it free |
| `BrokerCalls.PubEndsIff` | mbroker/mbroker.c:303-322 | a publisher session ends exactly because its client hung up, its box was full or its slot was free |
| `BrokerCalls.ReturnsIff` | mbroker/mbroker.c:275-338 | a request returns exactly at its end, or refused because of another publisher or a gone name |
| `BrokerCalls.PublisherAdmitted` | mbroker/mbroker.c:280-296 | a publisher that finds nobody counted and its name bound is counted and writes at the end of its file |
| `BrokerCalls.SubscriberAdmitted` | mbroker/mbroker.c:353-363 | a subscriber whose name is bound reads its file from the beginning |
| `BrokerCalls.BoxCreated` | mbroker/mbroker.c:548-567 | a created box has a slot of its name and a new, empty file |
| `BrokerCalls.BoxRemoved` | mbroker/mbroker.c:574-588 | a removed box has neither slot nor name, and nobody sleeps on its slot |
| `BrokerCalls.MessagePublished` | mbroker/mbroker.c:303-331 | a message received for a box in use is written and broadcast, and wakes everybody who sleeps on the slot |
| `BrokerCalls.MessageSent` | mbroker/mbroker.c:375-404 | a subscriber with its slot in use and a message unread sends it by at most five of its own steps, once it gets the slot |
| `BrokerCalls.AllSent` | mbroker/mbroker.c:391-404 | and then every message in the file, two steps for each |
| `BrokerCalls.SleeperGetsIt` | mbroker/mbroker.c:321-404 | who sleeps with all of its file read gets the next message published on its slot |
| `BrokerCalls.CanGoOn` | mbroker/mbroker.c:269-413 | whoever wants to step can, or its slot is locked by somebody who can or who leaked it |
| `BrokerDelivery.SharedStrays` | mbroker/mbroker.c:281-296 | a publisher that opens a file another session writes strays to it, unless one did before |
| `BrokerDelivery.AppendStep` | mbroker/mbroker.c:321-325 | a step appends what it writes exactly when it does not write behind the end |
| `BrokerDelivery.OnlyAppends` | mbroker/mbroker.c:321-325 | in every run a file loses exactly as many messages as are overwritten, and with none exactly the messages written are appended |
| `BrokerDelivery.IntactIff` | mbroker/mbroker.c:321-325 | after every run a file holds every message written to it, in order, exactly when none was overwritten |
| `BrokerDelivery.StepInv` | mbroker/mbroker.c:321-405 | every step keeps what sessions read, put out and announced consistent, file by file |
| `BrokerDelivery.EveryRunIsExact` | mbroker/mbroker.c:375-405 | in every run output is as long as what was read plus one for each pass; on a file with nothing overwritten it is what was read if and only if there was no pass; a sleeper read all that was broadcast on its slot and misses a message only if the last broadcast went elsewhere; lost messages mean a shared file and that a strayed-to one |
| `BrokerDelivery.RunShares` | mbroker/mbroker.c:280-293 | a file is marked shared exactly when some publisher opens it beside another writer |
| `BrokerDelivery.RunStrays` | mbroker/mbroker.c:275-289 | a file is marked strayed in a run exactly when some publisher opens one whose box is not in the slot it is counted on |
| `BrokerDelivery.EveryRunDelivers` | mbroker/mbroker.c:375-405 | in every run each session that never passed a slot, on a file with no message overwritten, was sent a gap-free in-order prefix of the messages written |
| `BrokerDelivery.RetakesComeFirst` | mbroker/mbroker.c:378-391 | no subscriber passes a slot unless one was taken anew under a subscriber that saw it free |
| `BrokerDelivery.UnstrayedRunDelivers` | mbroker/mbroker.c:375-405 | without stray publishers and slots taken anew under such a subscriber every session was sent a prefix of its box |
| `BrokerDelivery.UnstrayedRunWakes` | mbroker/mbroker.c:321-331 | if moreover no subscriber opened a moved box, every sleeping one was sent every message broadcast anywhere, and all messages if none is about to be announced |
| `BrokerDelivery.SleeperHasItsBox` | mbroker/mbroker.c:581-584 | while a slot is not taken anew it keeps its box, and a session that sleeps on it sleeps on a box in use |
| `BrokerRaces.SentTwice` | mbroker/mbroker.c:378-399 | a reachable state in which a subscriber was sent the same message twice |
| `BrokerRaces.TwoWriters` | mbroker/mbroker.c:275-289 | a reachable state in which two publishers write one file and a message is overwritten |
| `BrokerRaces.SleepsThrough` | mbroker/mbroker.c:347-357 | a reachable state in which a subscriber sleeps on another box's slot over a message whose broadcast is complete |
| `BrokerRaces.LeakReached` | mbroker/mbroker.c:358-361 | a reachable state in which a subscriber returned with its slot locked |
| `BrokerFiles.HandleForReady` | mbroker/mbroker.c:120 | open handles equal busy workers, so a worker that takes a request finds a free handle |
| `BrokerFiles.SlotForNew` | mbroker/mbroker.c:147 | there is always a free slot, so box_create never fails after the file was created |
| `BrokerFiles.CanCreateIff` | mbroker/mbroker.c:430-437 | in numbers: a slash and a new name of 1 to 39 bytes, an inode, and a directory entry of 44 bytes |
| `BrokerFiles.BoxHolds` | mbroker/mbroker.c:118-121 | a box of 1 MiB has room for 1024 messages of 1024 bytes |
| `BrokerFiles.CreateBoxEffect` | mbroker/mbroker.c:430-437 | a create request succeeds exactly when a new file can be made and otherwise leaves everything as it was |
| `BrokerFiles.RemoveBoxEffect` | mbroker/mbroker.c:467-468 | a remove request succeeds exactly when the box exists; the unlink after box_delete never fails |
| `BrokerFiles.StartEffect` | mbroker/mbroker.c:275-289 | once the box is found, opening its file succeeds |
| `BrokerFiles.FramesWrite` | mbroker/mbroker.c:318-325 | writing at a frame boundary replaces or appends exactly one message |
| `BrokerFiles.WriteEffect` | fs/state.c:673-707 | a write of a message is all or nothing, and nothing exactly when the block is full |
| `BrokerFiles.ReadEffect` | fs/state.c:743-761 | a read of a message returns the next whole message, or nothing exactly at the end |
| `BrokerFiles.StepInv` | mbroker/mbroker.c:303-404 | every request and session step keeps index, handles and whole frames |
| `BrokerFiles.EveryRun` | mbroker/mbroker.c:548-594 | after every run boxes are exactly the directory's names, handles are as many as busy workers, files and offsets are whole messages, and each step succeeds exactly when it should |
| `BoxTable.LiveTake` | mbroker/mbroker.c:553-563 | taking a free slot adds one box to those in use and nothing else |
| `BoxTable.LiveFree` | mbroker/mbroker.c:575-585 | freeing a slot removes its box and nothing else |
| `BoxTable.LiveBounds` | mbroker/mbroker.c:504-510 | none or all slots in use, in terms of the number of boxes |
| `BoxTable.Read64` | mbroker/mbroker.c:524-529 | the 64-bit counters of a packet read back |
| `BoxTable.Table.constructor` | mbroker/mbroker.c:146-161 | every slot free |
| `BoxTable.Table.Create` | mbroker/mbroker.c:548-572 | takes the first free slot, fails exactly when all are in use, and keeps n_boxes equal to the number in use; n_publishers survives |
| `BoxTable.Table.Delete` | mbroker/mbroker.c:574-594 | frees the first box of that name and keeps n_boxes exact, or fails if there is none |
| `BoxTable.Table.Find` | mbroker/mbroker.c:596-610 | the first slot in use under that name |
| `BoxTable.Locate` | mbroker/mbroker.c:598-606 | first match or none |
| `BoxTable.Table.FillPacket` | mbroker/mbroker.c:516-532 | the packet filled through a moving offset has the stated layout |
| `BoxTable.Table.List` | mbroker/mbroker.c:504-542 | sends one packet per box in slot order with last only on the final one, or one packet saying there are none |
| `BoxTable.AnnounceLayout` | mbroker/mbroker.c:513-520 | a listing is 58 bytes for each box, at least once; each packet starts with code 8 and the last flag is set on the final one alone |
| `Listing.GreaterIff` | utils/insertion-sort.c:20 | the comparison is strcmp's: after a common start the greater string goes on where the other ends, or with a greater byte |
| `Listing.GreaterIsOrder` | utils/insertion-sort.c:20 | that order is total, antisymmetric and transitive |
| `Listing.SortedInsert` | utils/insertion-sort.c:13-25 | the shifting loop equals the specified insertion and leaves the rest of the array alone |
| `Listing.InsertSorted` | utils/insertion-sort.c:19-24 | insertion keeps a sorted array sorted |
| `Listing.InsertPermutes` | utils/insertion-sort.c:19-24 | insertion adds exactly the new box |
| `Listing.InsertAllSorts` | manager/manager.c:166 | repeated insertion gives a sorted permutation |
| `Listing.ParseReadsBack` | manager/manager.c:151-159 | reading a packet field by field recovers the box that was sent |
| `Listing.ShownName` | manager/manager.c:153-154 | the shown name is the box name without its slash, although one byte of the size follows it in the field |
| `Listing.ReceiveListing` | manager/manager.c:139-168 | the receive loop ends with the inserted boxes of the stream, or fails exactly on a malformed one |
| `Listing.ListingIsExact` | manager/manager.c:163-165 | the manager receives exactly the boxes sent, if and only if the last name is not empty |
| `Listing.ListingEndToEnd` | manager/manager.c:139-174 | for all tables the manager ends with the name-sorted permutation of exactly the boxes in use |
| `Listing.ListBoxes` | mbroker/mbroker.c:504-542 | broker loop and manager loop together give the boxes of the table in byte order of their names, within 64 entries |
| `Protocol.PacketWrite` | protocol/protocol.c:42-46 | copies the data at the offset, moves the offset past it, changes nothing else |
| `Protocol.RequestPacket` | protocol/protocol.c:48-68 | the packet a client builds is the encoding of its request |
| `Protocol.SplitsOff` | mbroker/mbroker.c:190-213 | one packet is split off exactly whatever bytes follow it |
| `Protocol.RoundTrip` | mbroker/mbroker.c:70-84 | decoding the packets of any list of requests gives the same list with a slash before each box |
| `Protocol.RoundTripInNumbers` | protocol/protocol.h:326-337 | the round trip for codes 1, 2, 3, 5 and 7, pipes under 256 bytes and boxes of at most 30 bytes |
| `Protocol.SendableIff` | protocol/protocol.h:326-337 | exactly these requests can be sent |
| `Protocol.EncodingInjective` | protocol/protocol.c:58-68 | different lists of requests have different bytes |
| `Protocol.Listen` | mbroker/mbroker.c:70-84 | the listener loop queues exactly the decoded requests and reports failure exactly on a short packet |

## Left out

- FileSystem.TecnicoFs.Open: requires the chain of links to end, because the source recurses without bound otherwise; the condition is exact.
- FileSystem.TecnicoFs.OpenPath: the same condition as for Open, at the level of the tables.
- FileSystem.TecnicoFs.SymLink: requires target and terminator to fit a block, because the source copies past the block otherwise.
- FileSystem.TecnicoFs.MakeSymLink: the same condition as for SymLink.
- FsRefinement.SymLinkStep: the same condition as for SymLink.
- FileSystem.TecnicoFs.constructor: takes fresh memory to be zero; the source relies on it for the names of free directory entries.
- FileSystem.TecnicoFs.Write: sizes are unbounded naturals, so the overflow of length plus offset in `size_t` is not modelled.
- FileSystem.TecnicoFs.WriteToOpenFile: as for Write; a buffer so long that the sum wraps cannot exist in memory beside the file system.
- Queue.PcQueue.Enqueue: the class is the unblocked part of the call; waiting is in `QueueThreads`.
- Protocol.Listen: excludes an unknown code, on which the source spins for ever, and fields that would overrun the request.
- Protocol.RequestPacket: requires the box name to fit its 32 bytes, because the source copies past the packet otherwise.
- BoxTable.Table.Create: requires a name that fits its field, because the source copies past it otherwise; names that reach it were accepted by the file system.
- Listing.ReceiveListing: requires at most 64 boxes, the size of the manager's array, which the source does not check; a broker with 64 inodes never sends more.
- BrokerDelivery.UnstrayedRunDelivers: a corollary with hypotheses on the run, like UnstrayedRunWakes; EveryRunIsExact and EveryRunDelivers exclude no run.
- BrokerFiles.EveryRun: each create and remove request is one step, so two creators of one name do not race.
- NULL path names and buffers: a NULL path acts as the empty one, which every call refuses.
- `tfs_open` racing with `tfs_unlink`, and two threads closing one handle: the source gives no guarantee, and a handle may come to lead to another file's reused inode; in `LinkProtocol` handles are opened beforehand and closed once, in `BrokerSessions` and `BrokerDelivery` opening a file is one step.
- Two requests that create one name at the same time, which can give one file two slots: in `BrokerSessions` and `BrokerDelivery` testing for the name, creating the file and taking the slot are one step.
- `tfs_sym_link` and `tfs_open` in `LinkProtocol`: they add entries to new inodes only and take no part in the reference counting of others.
- `n_subscribers`: reset by `box_create` under live sessions and only shown in listings; `BrokerSessions` does not follow it.
- Naming a slot is a later step than taking it in `BrokerSessions`, as in the source.
- `tfs_copy_from_external_fs`, the publisher and subscriber clients, named pipes, EINTR, signals and argument parsing: operating-system input and output; pipes are byte sequences.
- `state_destroy`, `tfs_destroy`, `pcq_destroy` and clean-up after failed initialisation: no property beyond releasing memory.
- `insert_delay`, logging and the lock wrappers: timing and plumbing; locks are primitive steps and asserts are proof obligations.
- The answers to create and remove requests sent back to the manager: fixed-layout packets without further structure.
- Byte order: 32-bit inumbers and 64-bit counters are little-endian, and a name field is followed directly by the size, as on the platforms the source targets.
