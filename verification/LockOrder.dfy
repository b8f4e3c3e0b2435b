/**
 The locking of the server as nested sections: which locks each file-system operation and each
 broker handler takes inside which others, on every branch. All sections respect one order, so
 threads running any mix of them never deadlock.
 */
module LockOrder {

  datatype Lock =
    | FreeBoxes            // free_boxes_lock
    | Box(i: nat)          // boxes_table[i].mutex
    | LinkLock
    | OpenMutex
    | OpenTable            // free_open_file_entries_mutex
    | Handle(h: nat)       // open_file_table[h].mutex
    | FreeInodes           // freeinode_ts_lock
    | InodeLock(n: nat)
    | FreeBlocks           // free_blocks_mutex
    | DirLock(b: nat)

  function Rank(l: Lock): (r: nat)
    ensures 1 <= r <= 10
  {
    match l
    case FreeBoxes => 1
    case Box(_) => 2
    case LinkLock => 3
    case OpenMutex => 4
    case OpenTable => 5
    case Handle(_) => 6
    case FreeInodes => 7
    case InodeLock(_) => 8
    case FreeBlocks => 9
    case DirLock(_) => 10
  }

  /** lock; body; unlock. */
  datatype Section = Section(lock: Lock, exclusive: bool, body: seq<Section>)

  /** Every lock is taken above all those already held. */
  ghost predicate Ordered(x: Section, above: nat) {
    Rank(x.lock) > above && forall i :: 0 <= i < |x.body| ==> Ordered(x.body[i], Rank(x.lock))
  }

  ghost predicate AllOrdered(xs: seq<Section>, above: nat) {
    forall i :: 0 <= i < |xs| ==> Ordered(xs[i], above)
  }

  // ---- Sections of fs/state.c ----

  /** data_block_alloc and data_block_free. */
  function BlockTable(): (x: Section)
    ensures Ordered(x, 8)
  {
    Section(FreeBlocks, true, [])
  }

  function InodeAlloc(): (x: Section)
    ensures Ordered(x, 6)
  {
    Section(FreeInodes, true, [])
  }

  function InodeDelete(n: nat, hasBlock: bool): (x: Section)
    ensures Ordered(x, 6)
  {
    Section(FreeInodes, true, [Section(InodeLock(n), true, if hasBlock then [BlockTable()] else [])])
  }

  /** find_in_dir reads, add_dir_entry and clear_dir_entry write. */
  function Directory(b: nat, writes: bool): (x: Section)
    ensures Ordered(x, 9)
  {
    Section(DirLock(b), writes, [])
  }

  datatype Adding = Stale | TableFull | Added(h: nat)

  function AddHandle(o: Adding): (xs: seq<Section>)
    ensures AllOrdered(xs, 4)
  {
    match o
    case Stale => []
    case TableFull => [Section(OpenTable, true, [])]
    case Added(h) => [Section(OpenTable, true, [Section(Handle(h), true, [])])]
  }

  // ---- Sections of fs/operations.c ----

  datatype Opening = Existing(n: nat, frees: bool) | Created(n: nat) | Refused(n: nat) | NoInode | Missing

  /** The last round of tfs_open. */
  function Open(b: nat, o: Opening, adding: Adding): (xs: seq<Section>)
    ensures AllOrdered(xs, 3)
  {
    match o
    case Existing(n, frees) =>
      [Section(OpenMutex, true, [Directory(b, false)]),
       Section(InodeLock(n), true, if frees then [BlockTable()] else [])] + AddHandle(adding)
    case Created(n) =>
      [Section(OpenMutex, true, [Directory(b, false), InodeAlloc(), Directory(b, true)])] + AddHandle(adding)
    case Refused(n) =>
      [Section(OpenMutex, true, [Directory(b, false), InodeAlloc(), Directory(b, true)]), InodeDelete(n, false)]
    case NoInode => [Section(OpenMutex, true, [Directory(b, false), InodeAlloc()])]
    case Missing => [Section(OpenMutex, true, [Directory(b, false)])]
  }

  /** Rounds that find a symbolic link and go on with its target. */
  function FollowLinks(b: nat, links: seq<nat>): (xs: seq<Section>)
    ensures AllOrdered(xs, 3)
  {
    if links == [] then []
    else
      [Section(OpenMutex, true, [Directory(b, false)]), Section(InodeLock(links[0]), true, [])]
      + FollowLinks(b, links[1..])
  }

  function Close(h: nat, n: nat, deletes: bool, hasBlock: bool): (x: Section)
    ensures Ordered(x, 4)
  {
    Section(OpenTable, true,
            [Section(Handle(h), true,
                     [Section(InodeLock(n), false, [])] + if deletes then [InodeDelete(n, hasBlock)] else [])])
  }

  function Write(h: nat, n: nat, allocates: bool): (x: Section)
    ensures Ordered(x, 5)
  {
    Section(Handle(h), true, [Section(InodeLock(n), true, if allocates then [BlockTable()] else [])])
  }

  function Read(h: nat, n: nat): (x: Section)
    ensures Ordered(x, 5)
  {
    Section(Handle(h), true, [Section(InodeLock(n), false, [])])
  }

  datatype SymLinking = NoFreeInode | NoFreeBlock(n: nat) | NameRefused(n: nat) | Made

  function SymLink(b: nat, o: SymLinking): (x: Section)
    ensures Ordered(x, 2)
  {
    Section(LinkLock, false,
            match o
            case NoFreeInode => [InodeAlloc()]
            case NoFreeBlock(n) => [InodeAlloc(), BlockTable(), InodeDelete(n, false)]
            case NameRefused(n) => [InodeAlloc(), BlockTable(), Directory(b, true), InodeDelete(n, false)]
            case Made => [InodeAlloc(), BlockTable(), Directory(b, true)])
  }

  datatype Linking = NoTarget | NotAdded | ToSymLink | Linked(n: nat)

  function Link(b: nat, o: Linking): (x: Section)
    ensures Ordered(x, 2)
  {
    Section(LinkLock, false,
            match o
            case NoTarget => [Directory(b, false)]
            case NotAdded => [Directory(b, false), Directory(b, true)]
            case ToSymLink => [Directory(b, false), Directory(b, true), Directory(b, true)]
            case Linked(n) => [Directory(b, false), Directory(b, true), Section(InodeLock(n), true, [])])
  }

  datatype Unlinking = NoEntry | NotCleared | Kept(n: nat) | Deleted(n: nat, hasBlock: bool)

  function Unlink(b: nat, o: Unlinking): (x: Section)
    ensures Ordered(x, 2)
  {
    Section(LinkLock, true,
            match o
            case NoEntry => [Directory(b, false)]
            case NotCleared => [Directory(b, false), Directory(b, true)]
            case Kept(n) =>
              [Directory(b, false), Directory(b, true), Section(OpenTable, true, [Section(InodeLock(n), true, [])])]
            case Deleted(n, hasBlock) =>
              [Directory(b, false), Directory(b, true),
               Section(OpenTable, true, [Section(InodeLock(n), true, []), InodeDelete(n, hasBlock)])])
  }

  // ---- Sections of mbroker/mbroker.c ----

  function BoxIndex(writes: bool): (x: Section)
    ensures Ordered(x, 0)
  {
    Section(FreeBoxes, writes, [])
  }

  function InBox(i: nat, body: seq<Section>): (x: Section)
    requires AllOrdered(body, 2)
    ensures Ordered(x, 1)
  {
    Section(Box(i), true, body)
  }

  /** One round of a publisher session: check the box, write, announce. */
  function PublishRound(i: nat, h: nat, n: nat, allocates: bool): (xs: seq<Section>)
    ensures AllOrdered(xs, 0)
  {
    [BoxIndex(false), Write(h, n, allocates), InBox(i, [])]
  }

  function PublishRounds(i: nat, h: nat, n: nat, allocates: seq<bool>): (xs: seq<Section>)
    ensures AllOrdered(xs, 0)
  {
    if allocates == [] then [] else PublishRound(i, h, n, allocates[0]) + PublishRounds(i, h, n, allocates[1..])
  }

  /** A session ends by closing its file, which may be the last reference to it. */
  function Leave(i: nat, h: nat, n: nat, deletes: bool, hasBlock: bool): (xs: seq<Section>)
    ensures AllOrdered(xs, 0)
  {
    [InBox(i, []), Close(h, n, deletes, hasBlock)]
  }

  /** Where in its last round a publisher session stops. */
  datatype LastRound = HungUp | BoxGone | WriteFailed(allocates: bool)

  function LastSections(h: nat, n: nat, last: LastRound): (xs: seq<Section>)
    ensures AllOrdered(xs, 0)
  {
    match last
    case HungUp => []
    case BoxGone => [BoxIndex(false)]
    case WriteFailed(allocates) => [BoxIndex(false), Write(h, n, allocates)]
  }

  datatype Publishing =
    | NoBox
    | Busy                                                // there is a publisher already
    | OpenFailed
    | Published(allocates: seq<bool>, last: LastRound)    // whole rounds, then the last one

  function PubRegister(i: nat, o: Publishing, open: seq<Section>, h: nat, n: nat, leave: seq<Section>): (xs: seq<Section>)
    requires AllOrdered(open, 2) && AllOrdered(leave, 0)
    ensures AllOrdered(xs, 0)
  {
    match o
    case NoBox => [BoxIndex(false)]
    case Busy => [BoxIndex(false), InBox(i, [])]
    case OpenFailed => [BoxIndex(false), InBox(i, open)]
    case Published(allocates, last) =>
      [BoxIndex(false), InBox(i, open)] + PublishRounds(i, h, n, allocates) + LastSections(h, n, last) + leave
  }

  function Repeat(x: Section, k: nat): (xs: seq<Section>)
    requires Ordered(x, 0)
    ensures AllOrdered(xs, 0)
  {
    seq(k, _ => x)
  }

  /** A wait releases the box, so a round reads once more under its mutex for every wakeup. */
  datatype SubRound =
    | Got(waits: nat, more: nat)     // then it checks the box and reads on without the mutex
    | Gone(waits: nat)                // found the box removed

  function SubscribeRound(i: nat, h: nat, n: nat, round: SubRound): (xs: seq<Section>)
    ensures AllOrdered(xs, 0)
  {
    match round
    case Got(waits, more) => Repeat(InBox(i, [Read(h, n)]), waits + 1) + [BoxIndex(false)] + Repeat(Read(h, n), more)
    case Gone(waits) => Repeat(InBox(i, [Read(h, n)]), waits) + [InBox(i, []), BoxIndex(false)]
  }

  function SubscribeRounds(i: nat, h: nat, n: nat, rounds: seq<SubRound>): (xs: seq<Section>)
    ensures AllOrdered(xs, 0)
  {
    if rounds == [] then [] else SubscribeRound(i, h, n, rounds[0]) + SubscribeRounds(i, h, n, rounds[1..])
  }

  /** A subscriber request whose tfs_open succeeds. */
  function SubRegister(i: nat, open: seq<Section>, h: nat, n: nat, rounds: seq<SubRound>, leave: seq<Section>): (xs: seq<Section>)
    requires AllOrdered(open, 2) && AllOrdered(leave, 0)
    ensures AllOrdered(xs, 0)
  {
    [BoxIndex(false), InBox(i, open)] + SubscribeRounds(i, h, n, rounds) + leave
  }

  datatype Creating = Exists | NotCreated | NoSlot | BoxMade(i: nat)

  /** The first open tests for the file and the second creates it. */
  function CreateBox(o: Creating, open: seq<Section>, again: seq<Section>, close: Section): (xs: seq<Section>)
    requires AllOrdered(open, 2) && AllOrdered(again, 2) && Ordered(close, 2)
    ensures AllOrdered(xs, 0)
  {
    match o
    case Exists => open + [close]
    case NotCreated => open + again
    case NoSlot => open + again + [BoxIndex(true), close]
    case BoxMade(i) => open + again + [BoxIndex(true), InBox(i, []), close]
  }

  function RemoveBox(i: nat, found: bool, unlink: Section): (xs: seq<Section>)
    requires Ordered(unlink, 2)
    ensures AllOrdered(xs, 0)
  {
    if found then [Section(FreeBoxes, true, [InBox(i, [])]), unlink] else [BoxIndex(true)]
  }

  function ListBoxes(boxes: seq<nat>): (xs: seq<Section>)
    ensures AllOrdered(xs, 0)
  {
    [Section(FreeBoxes, false, seq(|boxes|, k requires 0 <= k < |boxes| => InBox(boxes[k], [])))]
  }

  // ---- Calls ----

  /** The block of the root directory. */
  const ROOT_BLOCK: nat := 0

  /** A call of tfs_open: the links it follows, its last round and its handle. */
  datatype OpenCall = OpenCall(links: seq<nat>, o: Opening, adding: Adding)

  function OpenSections(c: OpenCall): (xs: seq<Section>)
    ensures AllOrdered(xs, 3)
  {
    FollowLinks(ROOT_BLOCK, c.links) + Open(ROOT_BLOCK, c.o, c.adding)
  }

  /** Every public call of the file system and every request handler of the broker, with what happens in it. */
  datatype Call =
    | CallOpen(open: OpenCall)
    | CallClose(h: nat, n: nat, deletes: bool, hasBlock: bool)
    | CallWrite(h: nat, n: nat, allocates: bool)
    | CallRead(h: nat, n: nat)
    | CallSymLink(symlink: SymLinking)
    | CallLink(link: Linking)
    | CallUnlink(unlink: Unlinking)
    | ServePublisher(i: nat, pub: Publishing, open: OpenCall, h: nat, n: nat, deletes: bool, hasBlock: bool)
    | ServeSubscriber(i: nat, open: OpenCall, h: nat, n: nat, rounds: seq<SubRound>, deletes: bool, hasBlock: bool)
    | ServeCreate(create: Creating, open: OpenCall, again: OpenCall, h: nat, n: nat, deletes: bool, hasBlock: bool)
    | ServeRemove(i: nat, found: bool, unlink: Unlinking)
    | ServeList(boxes: seq<nat>)
    | FailSubscriber(i: nat, open: OpenCall)    // its tfs_open fails and it returns without unlocking the box

  function Sections(c: Call): (xs: seq<Section>)
    requires !c.FailSubscriber?
    ensures AllOrdered(xs, 0)
  {
    match c
    case CallOpen(open) => OpenSections(open)
    case CallClose(h, n, deletes, hasBlock) => [Close(h, n, deletes, hasBlock)]
    case CallWrite(h, n, allocates) => [Write(h, n, allocates)]
    case CallRead(h, n) => [Read(h, n)]
    case CallSymLink(o) => [SymLink(ROOT_BLOCK, o)]
    case CallLink(o) => [Link(ROOT_BLOCK, o)]
    case CallUnlink(o) => [Unlink(ROOT_BLOCK, o)]
    case ServePublisher(i, o, open, h, n, deletes, hasBlock) =>
      PubRegister(i, o, OpenSections(open), h, n, Leave(i, h, n, deletes, hasBlock))
    case ServeSubscriber(i, open, h, n, rounds, deletes, hasBlock) =>
      SubRegister(i, OpenSections(open), h, n, rounds, Leave(i, h, n, deletes, hasBlock))
    case ServeCreate(o, open, again, h, n, deletes, hasBlock) =>
      CreateBox(o, OpenSections(open), OpenSections(again), Close(h, n, deletes, hasBlock))
    case ServeRemove(i, found, o) => RemoveBox(i, found, Unlink(ROOT_BLOCK, o))
    case ServeList(boxes) => ListBoxes(boxes)
  }

  // ---- Which locks a call takes ----

  /** The locks taken in sections, with their modes. */
  function Takes(xs: seq<Section>): set<(Lock, bool)> {
    if xs == [] then {} else {(xs[0].lock, xs[0].exclusive)} + Takes(xs[0].body) + Takes(xs[1..])
  }

  lemma {:induction false} TakesBoth(xs: seq<Section>, ys: seq<Section>)
    ensures Takes(xs + ys) == Takes(xs) + Takes(ys)
    decreases |xs|
  {
    if xs == [] {
      assert xs + ys == ys;
    } else {
      TakesBoth(xs[1..], ys);
      assert (xs + ys)[1..] == xs[1..] + ys;
    }
  }

  lemma TakesFew(x: Section, y: Section, z: Section)
    ensures Takes([]) == {}
    ensures Takes([x]) == {(x.lock, x.exclusive)} + Takes(x.body)
    ensures Takes([x, y]) == Takes([x]) + Takes([y])
    ensures Takes([x, y, z]) == Takes([x]) + Takes([y]) + Takes([z])
  {
    TakesBoth([x], [y]);
    TakesBoth([x, y], [z]);
    assert [x] + [y] == [x, y] && [x, y] + [z] == [x, y, z];
  }

  /** A lock taken with nothing inside. */
  lemma Alone(l: Lock, x: bool)
    ensures Takes([Section(l, x, [])]) == {(l, x)}
  {
    assert Takes([]) == {};
  }

  lemma DeleteTakes(n: nat, hasBlock: bool)
    ensures Takes([InodeDelete(n, hasBlock)])
         == {(FreeInodes, true), (InodeLock(n), true)} + if hasBlock then {(FreeBlocks, true)} else {}
  {
    var x := InodeDelete(n, hasBlock);
    TakesFew(x, x, x);
    TakesFew(x.body[0], x, x);
    Alone(FreeBlocks, true);
  }

  /** tfs_unlink: link_lock for writing, the directory, and where a name was found the table of open files and the inode. */
  lemma UnlinkTakes(n: nat)
    ensures Takes(Sections(CallUnlink(Kept(n)))) ==
      {(LinkLock, true), (DirLock(0), false), (DirLock(0), true), (OpenTable, true), (InodeLock(n), true)}
  {
    Alone(DirLock(0), false);
    Alone(DirLock(0), true);
    Alone(InodeLock(n), true);
    hide Takes;
    var kept := Unlink(0, Kept(n));
    TakesFew(kept, kept, kept);
    TakesFew(kept.body[0], kept.body[1], kept.body[2]);
    TakesFew(kept.body[2], kept, kept);
    assert Sections(CallUnlink(Kept(n))) == [kept];
  }

  /** And where that was the last reference, the inode table and the block table. */
  lemma LastUnlinkTakes(n: nat, hasBlock: bool)
    ensures Takes(Sections(CallUnlink(Deleted(n, hasBlock)))) ==
      {(LinkLock, true), (DirLock(0), false), (DirLock(0), true), (OpenTable, true), (InodeLock(n), true), (FreeInodes, true)}
      + if hasBlock then {(FreeBlocks, true)} else {}
  {
    Alone(DirLock(0), false);
    Alone(DirLock(0), true);
    Alone(InodeLock(n), true);
    DeleteTakes(n, hasBlock);
    hide Takes;
    var deleted := Unlink(0, Deleted(n, hasBlock));
    var table := Section(OpenTable, true, [Section(InodeLock(n), true, []), InodeDelete(n, hasBlock)]);
    TakesFew(deleted, deleted, deleted);
    assert deleted.body == [Directory(0, false), Directory(0, true), table];
    TakesFew(Directory(0, false), Directory(0, true), table);
    TakesFew(table, deleted, deleted);
    TakesFew(Section(InodeLock(n), true, []), InodeDelete(n, hasBlock), deleted);
    assert Sections(CallUnlink(Deleted(n, hasBlock))) == [deleted];
  }

  /** tfs_link: link_lock for reading, so that links run beside each other but not beside an unlink. */
  lemma LinkTakes(n: nat)
    ensures Takes(Sections(CallLink(Linked(n)))) ==
      {(LinkLock, false), (DirLock(0), false), (DirLock(0), true), (InodeLock(n), true)}
  {
    Alone(DirLock(0), false);
    Alone(DirLock(0), true);
    Alone(InodeLock(n), true);
    hide Takes;
    var link := Link(0, Linked(n));
    TakesFew(link, link, link);
    TakesFew(link.body[0], link.body[1], link.body[2]);
    assert Sections(CallLink(Linked(n))) == [link];
  }

  /** tfs_sym_link: link_lock for reading, too. */
  lemma SymLinkTakes()
    ensures Takes(Sections(CallSymLink(Made))) ==
      {(LinkLock, false), (FreeInodes, true), (FreeBlocks, true), (DirLock(0), true)}
  {
    Alone(DirLock(0), true);
    Alone(FreeInodes, true);
    Alone(FreeBlocks, true);
    hide Takes;
    var symlink := SymLink(0, Made);
    TakesFew(symlink, symlink, symlink);
    TakesFew(symlink.body[0], symlink.body[1], symlink.body[2]);
    assert Sections(CallSymLink(Made)) == [symlink];
  }

  /** tfs_close holds the table of open files over its test and delete. */
  lemma CloseTakes(h: nat, n: nat, hasBlock: bool)
    ensures Takes(Sections(CallClose(h, n, false, hasBlock))) == {(OpenTable, true), (Handle(h), true), (InodeLock(n), false)}
    ensures Takes(Sections(CallClose(h, n, true, hasBlock))) ==
      {(OpenTable, true), (Handle(h), true), (InodeLock(n), false), (FreeInodes, true), (InodeLock(n), true)}
      + if hasBlock then {(FreeBlocks, true)} else {}
  {
    Alone(InodeLock(n), false);
    DeleteTakes(n, hasBlock);
    hide Takes;
    var kept, deleted := Close(h, n, false, hasBlock), Close(h, n, true, hasBlock);
    TakesFew(kept, kept, kept);
    TakesFew(kept.body[0], kept, kept);
    assert kept.body[0].body == [Section(InodeLock(n), false, [])];
    TakesFew(deleted, deleted, deleted);
    TakesFew(deleted.body[0], deleted, deleted);
    assert deleted.body[0].body == [Section(InodeLock(n), false, []), InodeDelete(n, hasBlock)];
    TakesFew(Section(InodeLock(n), false, []), InodeDelete(n, hasBlock), kept);
    assert Sections(CallClose(h, n, false, hasBlock)) == [kept] && Sections(CallClose(h, n, true, hasBlock)) == [deleted];
  }

  /** Reads of a file share its inode, writes do not. */
  lemma TransferTakes(h: nat, n: nat)
    ensures Takes(Sections(CallRead(h, n))) == {(Handle(h), true), (InodeLock(n), false)}
    ensures Takes(Sections(CallWrite(h, n, false))) == {(Handle(h), true), (InodeLock(n), true)}
    ensures Takes(Sections(CallWrite(h, n, true))) == {(Handle(h), true), (InodeLock(n), true), (FreeBlocks, true)}
  {
    Alone(InodeLock(n), false);
    Alone(InodeLock(n), true);
    Alone(FreeBlocks, true);
    hide Takes;
    var read, plain, allocating := Read(h, n), Write(h, n, false), Write(h, n, true);
    TakesFew(read, read, read);
    TakesFew(plain, plain, plain);
    TakesFew(allocating, allocating, allocating);
    TakesFew(allocating.body[0], read, read);
  }

  /** tfs_open looks up and creates under open_mutex, and takes the table of open files for its handle. */
  lemma OpenTakes(n: nat, h: nat)
    ensures Takes(Sections(CallOpen(OpenCall([], Existing(n, false), Added(h))))) ==
      {(OpenMutex, true), (DirLock(0), false), (InodeLock(n), true), (OpenTable, true), (Handle(h), true)}
    ensures Takes(Sections(CallOpen(OpenCall([], Created(n), Added(h))))) ==
      {(OpenMutex, true), (DirLock(0), false), (FreeInodes, true), (DirLock(0), true), (OpenTable, true), (Handle(h), true)}
  {
    Alone(DirLock(0), false);
    Alone(DirLock(0), true);
    Alone(InodeLock(n), true);
    Alone(FreeInodes, true);
    Alone(Handle(h), true);
    hide Takes;
    var found := Section(OpenMutex, true, [Directory(0, false)]);
    var made := Section(OpenMutex, true, [Directory(0, false), InodeAlloc(), Directory(0, true)]);
    var inode := Section(InodeLock(n), true, []);
    var table := Section(OpenTable, true, [Section(Handle(h), true, [])]);
    TakesFew(found, inode, table);
    TakesFew(table, table, table);
    TakesFew(made, table, table);
    TakesFew(Directory(0, false), InodeAlloc(), Directory(0, true));
    assert Sections(CallOpen(OpenCall([], Existing(n, false), Added(h)))) == [found, inode, table];
    assert Sections(CallOpen(OpenCall([], Created(n), Added(h)))) == [made, table];
  }

  /** Removing a box takes its mutex inside free_boxes_lock for writing, then unlinks its file. */
  lemma RemoveTakes(i: nat)
    ensures Takes(Sections(ServeRemove(i, true, NoEntry))) ==
      {(FreeBoxes, true), (Box(i), true), (LinkLock, true), (DirLock(0), false)}
  {
    Alone(Box(i), true);
    Alone(DirLock(0), false);
    hide Takes;
    var free, unlink := Section(FreeBoxes, true, [InBox(i, [])]), Unlink(0, NoEntry);
    TakesFew(free, unlink, free);
    TakesFew(unlink, free, free);
    assert Sections(ServeRemove(i, true, NoEntry)) == [free, unlink];
  }

  /** Listing takes every box inside free_boxes_lock for reading. */
  lemma ListTakes(boxes: seq<nat>)
    ensures Takes(Sections(ServeList(boxes))) == {(FreeBoxes, false)} + (set b | b in boxes :: (Box(b), true))
  {
    BoxesTake(boxes);
    hide Takes;
    var list := ListBoxes(boxes)[0];
    TakesFew(list, list, list);
    assert Sections(ServeList(boxes)) == [list];
  }

  lemma {:induction false} BoxesTake(boxes: seq<nat>)
    ensures Takes(seq(|boxes|, k requires 0 <= k < |boxes| => InBox(boxes[k], []))) == set b | b in boxes :: (Box(b), true)
    decreases |boxes|
  {
    var xs := seq(|boxes|, k requires 0 <= k < |boxes| => InBox(boxes[k], []));
    if boxes != [] {
      var rest := boxes[1..];
      assert xs[1..] == seq(|rest|, k requires 0 <= k < |rest| => InBox(rest[k], []));
      BoxesTake(rest);
      assert boxes == [boxes[0]] + rest;
      assert Takes([]) == {};
    }
  }

  // ---- Threads running sections ----

  datatype Action = Acquire(lock: Lock, exclusive: bool) | Release(lock: Lock)

  function Flatten(xs: seq<Section>): seq<Action> {
    if xs == [] then []
    else [Acquire(xs[0].lock, xs[0].exclusive)] + Flatten(xs[0].body) + [Release(xs[0].lock)] + Flatten(xs[1..])
  }

  datatype Thread = Thread(rest: seq<Action>, held: map<Lock, bool>)

  /** What is left to do acquires upwards only and ends with nothing held. */
  ghost predicate Disciplined(rest: seq<Action>, held: map<Lock, bool>)
    decreases |rest|
  {
    if rest == [] then held == map[]
    else
      match rest[0]
      case Acquire(l, x) => (forall m :: m in held ==> Rank(m) < Rank(l)) && Disciplined(rest[1..], held[l := x])
      case Release(l) => l in held && Disciplined(rest[1..], held - {l})
  }

  ghost predicate Below(held: map<Lock, bool>, above: nat) {
    forall m :: m in held ==> Rank(m) <= above
  }

  lemma ThenRelease(l: Lock, x: bool, rest: seq<Action>, held: map<Lock, bool>)
    requires Disciplined(rest, held) && l !in held
    ensures Disciplined([Release(l)] + rest, held[l := x])
  {
    assert held[l := x] - {l} == held;
    assert ([Release(l)] + rest)[1..] == rest;
  }

  lemma FirstAcquire(l: Lock, x: bool, rest: seq<Action>, held: map<Lock, bool>)
    requires Disciplined(rest, held[l := x]) && forall m :: m in held ==> Rank(m) < Rank(l)
    ensures Disciplined([Acquire(l, x)] + rest, held)
  {
  }

  lemma FlattenShape(xs: seq<Section>, rest: seq<Action>)
    requires xs != []
    ensures Flatten(xs) + rest
         == [Acquire(xs[0].lock, xs[0].exclusive)] + (Flatten(xs[0].body) + ([Release(xs[0].lock)] + (Flatten(xs[1..]) + rest)))
  {
  }

  /** Ordered sections in front of a disciplined rest are disciplined. */
  lemma {:induction false} FlattenDisciplined(xs: seq<Section>, rest: seq<Action>, held: map<Lock, bool>, above: nat)
    requires AllOrdered(xs, above) && Below(held, above) && Disciplined(rest, held)
    ensures Disciplined(Flatten(xs) + rest, held)
    decreases xs
  {
    if xs == [] {
      assert Flatten(xs) + rest == rest;
    } else {
      hide Disciplined, Flatten;
      var l, x := xs[0].lock, xs[0].exclusive;
      assert Ordered(xs[0], above);
      FlattenDisciplined(xs[1..], rest, held, above);
      ThenRelease(l, x, Flatten(xs[1..]) + rest, held);
      var closing := [Release(l)] + (Flatten(xs[1..]) + rest);
      FlattenDisciplined(xs[0].body, closing, held[l := x], Rank(l));
      FirstAcquire(l, x, Flatten(xs[0].body) + closing, held);
      FlattenShape(xs, rest);
    }
  }

  /** A thread, the asking one included, holds the lock in a way that excludes the request. */
  ghost predicate Conflicts(threads: seq<Thread>, l: Lock, exclusive: bool, j: nat) {
    j < |threads| && l in threads[j].held && (exclusive || threads[j].held[l])
  }

  ghost predicate Enabled(threads: seq<Thread>, i: nat) {
    && i < |threads| && threads[i].rest != []
    && (threads[i].rest[0].Acquire? ==>
          forall j: nat :: !Conflicts(threads, threads[i].rest[0].lock, threads[i].rest[0].exclusive, j))
  }

  ghost function Apply(threads: seq<Thread>, i: nat): seq<Thread>
    requires Enabled(threads, i)
  {
    var t := threads[i];
    var held := match t.rest[0]
      case Acquire(l, x) => t.held[l := x]
      case Release(l) => t.held - {l};
    threads[i := Thread(t.rest[1..], held)]
  }

  /** What a call does to locks. A failing subscriber locks the box and never unlocks it. */
  function Actions(c: Call): seq<Action> {
    if c.FailSubscriber? then
      Flatten([BoxIndex(false)]) + ([Acquire(Box(c.i), true)] + Flatten(OpenSections(c.open)))
    else Flatten(Sections(c))
  }

  ghost function Begin(threads: seq<Thread>, i: nat, c: Call): seq<Thread>
    requires i < |threads|
  {
    threads[i := Thread(Actions(c), threads[i].held)]
  }

  ghost predicate Inv(threads: seq<Thread>) {
    forall i :: 0 <= i < |threads| ==> Disciplined(threads[i].rest, threads[i].held)
  }

  lemma StepInv(threads: seq<Thread>, i: nat)
    requires Inv(threads) && Enabled(threads, i)
    ensures Inv(Apply(threads, i))
  {
  }

  /** A thread that finished one call may start any other. */
  lemma BeginInv(threads: seq<Thread>, i: nat, c: Call)
    requires Inv(threads) && i < |threads| && threads[i].rest == [] && !c.FailSubscriber?
    ensures Inv(Begin(threads, i, c))
  {
    hide Sections;
    assert Disciplined(threads[i].rest, threads[i].held);
    FlattenDisciplined(Sections(c), [], map[], 0);
    assert Flatten(Sections(c)) + [] == Flatten(Sections(c));
  }

  /** Waiting for a lock someone holds leads to a thread that waits higher up, so some thread can go on. */
  lemma {:induction false} FindStep(threads: seq<Thread>, i: nat) returns (k: nat)
    requires Inv(threads) && i < |threads| && threads[i].rest != []
    ensures Enabled(threads, k)
    decreases if threads[i].rest[0].Acquire? then 11 - Rank(threads[i].rest[0].lock) else 0
  {
    k := i;
    if !Enabled(threads, i) {
      var a := threads[i].rest[0];
      var j: nat :| Conflicts(threads, a.lock, a.exclusive, j);
      assert Disciplined(threads[i].rest, threads[i].held);
      assert Disciplined(threads[j].rest, threads[j].held);
      k := FindStep(threads, j);
    }
  }

  datatype Step = Go(i: nat) | Start(i: nat, call: Call)

  ghost predicate CanRun(threads: seq<Thread>, run: seq<Step>)
    decreases |run|
  {
    run == [] || match run[0]
    case Go(i) => Enabled(threads, i) && CanRun(Apply(threads, i), run[1..])
    case Start(i, call) => i < |threads| && threads[i].rest == [] && CanRun(Begin(threads, i, call), run[1..])
  }

  ghost function After(threads: seq<Thread>, run: seq<Step>): seq<Thread>
    requires CanRun(threads, run)
    decreases |run|
  {
    if run == [] then threads
    else match run[0]
      case Go(i) => After(Apply(threads, i), run[1..])
      case Start(i, call) => After(Begin(threads, i, call), run[1..])
  }

  /** No subscriber's tfs_open fails. */
  predicate NoneFails(run: seq<Step>) {
    forall k :: 0 <= k < |run| && run[k].Start? ==> !run[k].call.FailSubscriber?
  }

  lemma {:induction false} RunInv(threads: seq<Thread>, run: seq<Step>)
    requires Inv(threads) && CanRun(threads, run) && NoneFails(run)
    ensures Inv(After(threads, run))
    decreases |run|
  {
    hide Inv, Enabled, Apply, Begin;
    if run != [] {
      match run[0]
      case Go(i) =>
        StepInv(threads, i);
        RunInv(Apply(threads, i), run[1..]);
      case Start(i, call) =>
        BeginInv(threads, i, call);
        RunInv(Begin(threads, i, call), run[1..]);
    }
  }

  /**
   In every reachable state of any mix of calls without a failing subscriber, as long as some call
   is unfinished, some thread can take its next step.
   */
  lemma NoDeadlock(threads: seq<Thread>, run: seq<Step>, i: nat) returns (k: nat)
    requires forall j :: 0 <= j < |threads| ==> threads[j] == Thread([], map[])
    requires CanRun(threads, run) && NoneFails(run)
    requires i < |After(threads, run)| && After(threads, run)[i].rest != []
    ensures Enabled(After(threads, run), k)
  {
    RunInv(threads, run);
    k := FindStep(After(threads, run), i);
  }

  // ---- The one path that keeps its lock ----

  /** The locks a thread holds once it has run a list of actions. */
  ghost function HeldAfter(rest: seq<Action>, held: map<Lock, bool>): map<Lock, bool>
    decreases |rest|
  {
    if rest == [] then held
    else match rest[0]
      case Acquire(l, x) => HeldAfter(rest[1..], held[l := x])
      case Release(l) => HeldAfter(rest[1..], held - {l})
  }

  /** Every lock is free of this thread when it asks for it. */
  ghost predicate AsksOnce(rest: seq<Action>, held: map<Lock, bool>)
    decreases |rest|
  {
    rest == [] || match rest[0]
    case Acquire(l, x) => l !in held && AsksOnce(rest[1..], held[l := x])
    case Release(l) => AsksOnce(rest[1..], held - {l})
  }

  lemma HeldRelease(l: Lock, x: bool, rest: seq<Action>, held: map<Lock, bool>)
    requires l !in held
    ensures HeldAfter([Release(l)] + rest, held[l := x]) == HeldAfter(rest, held)
    ensures AsksOnce(rest, held) ==> AsksOnce([Release(l)] + rest, held[l := x])
  {
    assert held[l := x] - {l} == held;
    assert ([Release(l)] + rest)[1..] == rest;
  }

  lemma HeldAcquire(l: Lock, x: bool, rest: seq<Action>, held: map<Lock, bool>)
    ensures HeldAfter([Acquire(l, x)] + rest, held) == HeldAfter(rest, held[l := x])
    ensures l !in held && AsksOnce(rest, held[l := x]) ==> AsksOnce([Acquire(l, x)] + rest, held)
  {
    assert ([Acquire(l, x)] + rest)[1..] == rest;
  }

  /** Sections give back every lock they take. */
  lemma {:induction false} SectionsRestore(xs: seq<Section>, rest: seq<Action>, held: map<Lock, bool>, above: nat)
    requires AllOrdered(xs, above) && Below(held, above)
    ensures HeldAfter(Flatten(xs) + rest, held) == HeldAfter(rest, held)
    ensures AsksOnce(rest, held) ==> AsksOnce(Flatten(xs) + rest, held)
    decreases xs
  {
    if xs == [] {
      assert Flatten(xs) + rest == rest;
    } else {
      hide HeldAfter, Flatten, AsksOnce;
      var l, x := xs[0].lock, xs[0].exclusive;
      assert Ordered(xs[0], above);
      var tail := Flatten(xs[1..]) + rest;
      var closing := [Release(l)] + tail;
      FlattenShape(xs, rest);
      HeldAcquire(l, x, Flatten(xs[0].body) + closing, held);
      SectionsRestore(xs[0].body, closing, held[l := x], Rank(l));
      HeldRelease(l, x, tail, held);
      SectionsRestore(xs[1..], rest, held, above);
    }
  }

  /** A call ends with nothing held, except that a failing subscriber keeps the mutex of its box. */
  lemma CallReleases(c: Call)
    ensures HeldAfter(Actions(c), map[]) == if c.FailSubscriber? then map[Box(c.i) := true] else map[]
    ensures AsksOnce(Actions(c), map[])
  {
    hide Sections, OpenSections, Flatten, HeldAfter, AsksOnce;
    NothingToDo(map[]);
    if c.FailSubscriber? {
      var xs := OpenSections(c.open);
      assert Flatten(xs) + [] == Flatten(xs);
      NothingToDo(map[Box(c.i) := true]);
      SectionsRestore(xs, [], map[Box(c.i) := true], 2);
      HeldAcquire(Box(c.i), true, Flatten(xs), map[]);
      SectionsRestore([BoxIndex(false)], [Acquire(Box(c.i), true)] + Flatten(xs), map[], 0);
    } else {
      var xs := Sections(c);
      SectionsRestore(xs, [], map[], 0);
      assert Flatten(xs) + [] == Flatten(xs);
    }
  }

  lemma NothingToDo(held: map<Lock, bool>)
    ensures HeldAfter([], held) == held && AsksOnce([], held)
  {
  }

  /** Where nobody else holds a lock, a thread runs its call to the end. */
  lemma {:induction false} RunsAlone(threads: seq<Thread>, j: nat) returns (run: seq<Step>)
    requires j < |threads| && AsksOnce(threads[j].rest, threads[j].held)
    requires forall k :: 0 <= k < |threads| && k != j ==> threads[k].held == map[]
    ensures CanRun(threads, run)
    ensures After(threads, run) == threads[j := Thread([], HeldAfter(threads[j].rest, threads[j].held))]
    decreases |threads[j].rest|
  {
    if threads[j].rest == [] {
      run := [];
      assert threads[j := threads[j]] == threads;
    } else {
      assert Enabled(threads, j);
      var next := Apply(threads, j);
      run := RunsAlone(next, j);
      var first := [Go(j)] + run;
      assert first[1..] == run;
      run := first;
    }
  }

  /** From idle threads, a failing subscriber request leads to a thread that is done and holds its box. */
  lemma LeakReached(threads: seq<Thread>, j: nat, c: Call) returns (run: seq<Step>)
    requires forall k :: 0 <= k < |threads| ==> threads[k] == Thread([], map[])
    requires j < |threads| && c.FailSubscriber?
    ensures CanRun(threads, run) && After(threads, run) == threads[j := Thread([], map[Box(c.i) := true])]
  {
    hide Actions, AsksOnce, HeldAfter;
    CallReleases(c);
    var begun := Begin(threads, j, c);
    run := RunsAlone(begun, j);
    var all := [Start(j, c)] + run;
    assert all[1..] == run;
    run := all;
  }

  /** No release of the lock comes before an acquisition of it. */
  ghost predicate Guarded(rest: seq<Action>, l: Lock)
    decreases |rest|
  {
    rest == [] || (rest[0].Acquire? && rest[0].lock == l) || (rest[0].lock != l && Guarded(rest[1..], l))
  }

  lemma GuardedFirst(a: Action, rest: seq<Action>, l: Lock)
    requires a.lock == l ==> a.Acquire?
    requires Guarded(rest, l)
    ensures Guarded([a] + rest, l)
  {
    assert ([a] + rest)[1..] == rest;
  }

  lemma {:induction false} FlattenGuarded(xs: seq<Section>, rest: seq<Action>, l: Lock)
    requires Guarded(rest, l)
    ensures Guarded(Flatten(xs) + rest, l)
    decreases xs
  {
    if xs == [] {
      assert Flatten(xs) + rest == rest;
    } else {
      FlattenShape(xs, rest);
      if xs[0].lock != l {
        hide Guarded, Flatten;
        FlattenGuarded(xs[1..], rest, l);
        var closing := [Release(xs[0].lock)] + (Flatten(xs[1..]) + rest);
        GuardedFirst(Release(xs[0].lock), Flatten(xs[1..]) + rest, l);
        FlattenGuarded(xs[0].body, closing, l);
        GuardedFirst(Acquire(xs[0].lock, xs[0].exclusive), Flatten(xs[0].body) + closing, l);
      }
    }
  }

  lemma ActionsGuarded(c: Call, l: Lock)
    ensures Guarded(Actions(c), l)
  {
    hide Sections, OpenSections, Flatten;
    assert Guarded([], l);
    if c.FailSubscriber? {
      var xs := OpenSections(c.open);
      FlattenGuarded(xs, [], l);
      assert Flatten(xs) + [] == Flatten(xs);
      GuardedFirst(Acquire(Box(c.i), true), Flatten(xs), l);
      FlattenGuarded([BoxIndex(false)], [Acquire(Box(c.i), true)] + Flatten(xs), l);
    } else {
      FlattenGuarded(Sections(c), [], l);
      assert Flatten(Sections(c)) + [] == Flatten(Sections(c));
    }
  }

  /** Thread j holds l for itself and will not release it before asking for it again. */
  ghost predicate Keeps(threads: seq<Thread>, j: nat, l: Lock) {
    && j < |threads| && l in threads[j].held && threads[j].held[l]
    && Guarded(threads[j].rest, l)
  }

  lemma NobodyGets(threads: seq<Thread>, j: nat, l: Lock, i: nat)
    requires Keeps(threads, j, l) && i < |threads| && threads[i].rest != [] && threads[i].rest[0].Acquire?
    requires threads[i].rest[0].lock == l
    ensures !Enabled(threads, i)
  {
    assert Conflicts(threads, l, threads[i].rest[0].exclusive, j);
  }

  lemma StepKeeps(threads: seq<Thread>, j: nat, l: Lock, i: nat)
    requires Keeps(threads, j, l) && Enabled(threads, i)
    ensures Keeps(Apply(threads, i), j, l)
  {
    if threads[i].rest[0].Acquire? && threads[i].rest[0].lock == l {
      NobodyGets(threads, j, l, i);
    }
  }

  /**
   A lock left behind stays held in every run, whatever calls anybody starts, and nobody who asks
   for it, its holder included, ever gets it.
   */
  lemma {:induction false} LeakedForGood(threads: seq<Thread>, run: seq<Step>, j: nat, l: Lock)
    requires CanRun(threads, run) && j < |threads|
    requires threads[j].rest == [] && l in threads[j].held && threads[j].held[l]
    ensures var u := After(threads, run);
      && |u| == |threads| && l in u[j].held && u[j].held[l]
      && forall i :: 0 <= i < |u| && u[i].rest != [] && u[i].rest[0].Acquire? && u[i].rest[0].lock == l ==> !Enabled(u, i)
  {
    RunKeeps(threads, run, j, l);
    var u := After(threads, run);
    hide After, CanRun;
    forall i | 0 <= i < |u| && u[i].rest != [] && u[i].rest[0].Acquire? && u[i].rest[0].lock == l
      ensures !Enabled(u, i)
    {
      NobodyGets(u, j, l, i);
    }
  }

  lemma {:induction false} RunKeeps(threads: seq<Thread>, run: seq<Step>, j: nat, l: Lock)
    requires CanRun(threads, run) && Keeps(threads, j, l)
    ensures Keeps(After(threads, run), j, l) && |After(threads, run)| == |threads|
    decreases |run|
  {
    if run != [] {
      match run[0]
      case Go(i) =>
        StepKeeps(threads, j, l, i);
        hide Keeps, Enabled;
        RunKeeps(Apply(threads, i), run[1..], j, l);
      case Start(i, call) =>
        ActionsGuarded(call, l);
        hide Actions, Guarded;
        RunKeeps(Begin(threads, i, call), run[1..], j, l);
    }
  }

  /** Thread i holds k for itself and asks for l, which thread j keeps. */
  ghost predicate Stuck(threads: seq<Thread>, i: nat, k: Lock, j: nat, l: Lock) {
    && Keeps(threads, j, l)
    && i < |threads| && k in threads[i].held && threads[i].held[k]
    && threads[i].rest != [] && threads[i].rest[0].Acquire? && threads[i].rest[0].lock == l
  }

  /** Who waits for a leaked lock waits for ever, and keeps what it holds from everybody else. */
  lemma {:induction false} StuckForGood(threads: seq<Thread>, run: seq<Step>, i: nat, k: Lock, j: nat, l: Lock)
    requires CanRun(threads, run) && Stuck(threads, i, k, j, l)
    ensures var u := After(threads, run);
      && |u| == |threads| && u[i] == threads[i] && !Enabled(u, i)
      && forall m :: 0 <= m < |u| && u[m].rest != [] && u[m].rest[0].Acquire? && u[m].rest[0].lock == k ==> !Enabled(u, m)
    decreases |run|
  {
    NobodyGets(threads, j, l, i);
    if run == [] {
      forall m | 0 <= m < |threads| && threads[m].rest != [] && threads[m].rest[0].Acquire? && threads[m].rest[0].lock == k
        ensures !Enabled(threads, m)
      {
        assert Conflicts(threads, k, threads[m].rest[0].exclusive, i);
      }
    } else {
      match run[0]
      case Go(m) =>
        StepKeeps(threads, j, l, m);
        hide Keeps, Enabled;
        StuckForGood(Apply(threads, m), run[1..], i, k, j, l);
      case Start(m, call) =>
        ActionsGuarded(call, l);
        hide Actions, Guarded;
        StuckForGood(Begin(threads, m, call), run[1..], i, k, j, l);
    }
  }

  /**
   A remove request for a leaked box is stuck with free_boxes_lock held, so from then on no request
   that looks at the boxes gets any further.
   */
  lemma RemoveBlocksAll(threads: seq<Thread>, i: nat, j: nat, box: nat, o: Unlinking) returns (run: seq<Step>)
    requires forall k :: 0 <= k < |threads| && k != j ==> threads[k] == Thread([], map[])
    requires i < |threads| && j < |threads| && i != j && threads[j] == Thread([], map[Box(box) := true])
    ensures CanRun(threads, run) && Stuck(After(threads, run), i, FreeBoxes, j, Box(box))
  {
    var c := ServeRemove(box, true, o);
    run := [Start(i, c), Go(i)];
    var begun := Begin(threads, i, c);
    RemoveStarts(box, o);
    assert run[1..] == [Go(i)] && run[1..][1..] == [];
    assert Enabled(begun, i);
    var next := Apply(begun, i);
    assert next[i].held == map[FreeBoxes := true];
    assert CanRun(next, []) && After(next, []) == next;
    assert After(begun, [Go(i)]) == next;
    assert Guarded([], Box(box));
  }

  lemma RemoveStarts(box: nat, o: Unlinking)
    ensures var actions := Actions(ServeRemove(box, true, o));
      |actions| >= 2 && actions[0] == Acquire(FreeBoxes, true) && actions[1] == Acquire(Box(box), true)
  {
    var xs := Sections(ServeRemove(box, true, o));
    assert xs[0] == Section(FreeBoxes, true, [InBox(box, [])]);
    FlattenShape(xs, []);
    FlattenShape(xs[0].body, []);
    assert Flatten(xs) + [] == Flatten(xs);
    assert Flatten(xs[0].body) + [] == Flatten(xs[0].body);
  }
}
