/** The root directory block: raw bytes on one side, named slots on the other. */
module Directory {
  import opened Bytes

  const MAX_FILE_NAME: nat := 40
  const ENTRY_SIZE: nat := 44

  /** A directory entry; inum is -1 when the entry is free. */
  datatype Slot = Slot(name: CString, inum: int)

  // ---- 32-bit little-endian two's complement integers ----

  function ReadInt32(b: seq<byte>): int
    requires |b| == 4
  {
    var u: int := b[0] as int + 256 * (b[1] as int) + 65536 * (b[2] as int) + 16777216 * (b[3] as int);
    if u < 0x8000_0000 then u else u - 0x1_0000_0000
  }

  function WriteInt32(v: int): (b: seq<byte>)
    requires -0x8000_0000 <= v < 0x8000_0000
    ensures |b| == 4
  {
    var u := if v < 0 then v + 0x1_0000_0000 else v;
    var u1 := u / 256;
    var u2 := u1 / 256;
    [u % 256, u1 % 256, u2 % 256, u2 / 256]
  }

  lemma Int32RoundTrip(v: int)
    requires -0x8000_0000 <= v < 0x8000_0000
    ensures ReadInt32(WriteInt32(v)) == v
  {
  }

  // ---- Entries ----

  function EntryCapacity(blockSize: nat): nat {
    blockSize / ENTRY_SIZE
  }

  function SlotAt(dir: seq<byte>, i: nat): Slot
    requires i < EntryCapacity(|dir|)
  {
    var at := i * ENTRY_SIZE;
    Slot(Str(dir[at..at + MAX_FILE_NAME]), ReadInt32(dir[at + MAX_FILE_NAME..at + ENTRY_SIZE]))
  }

  /** The directory block read as an array of entries. */
  function Slots(dir: seq<byte>): (s: seq<Slot>)
    ensures |s| == EntryCapacity(|dir|)
    ensures forall i :: 0 <= i < |s| ==> s[i] == SlotAt(dir, i)
  {
    seq(EntryCapacity(|dir|), i requires 0 <= i < EntryCapacity(|dir|) => SlotAt(dir, i))
  }

  /** strncpy into d_name: the name followed by NUL padding. */
  function NameField(name: CString): (f: seq<byte>)
    requires |name| < MAX_FILE_NAME
    ensures |f| == MAX_FILE_NAME
  {
    name + Zeros(MAX_FILE_NAME - |name|)
  }

  function SetName(dir: seq<byte>, i: nat, name: CString): (r: seq<byte>)
    requires i < EntryCapacity(|dir|) && |name| < MAX_FILE_NAME
    ensures |r| == |dir|
  {
    Splice(dir, i * ENTRY_SIZE, NameField(name))
  }

  function SetInum(dir: seq<byte>, i: nat, inum: int): (r: seq<byte>)
    requires i < EntryCapacity(|dir|) && -0x8000_0000 <= inum < 0x8000_0000
    ensures |r| == |dir|
  {
    Splice(dir, i * ENTRY_SIZE + MAX_FILE_NAME, WriteInt32(inum))
  }

  lemma NameFieldRead(name: CString)
    requires |name| < MAX_FILE_NAME
    ensures Str(NameField(name)) == name
  {
    var pad := Zeros(MAX_FILE_NAME - |name| - 1);
    StrTerminated(name, pad);
    assert NameField(name) == name + [0] + pad;
  }

  lemma SetNameKeepsInum(dir: seq<byte>, i: nat, name: CString, j: nat)
    requires i < EntryCapacity(|dir|) && j < EntryCapacity(|dir|) && |name| < MAX_FILE_NAME
    ensures SlotAt(SetName(dir, i, name), j).inum == SlotAt(dir, j).inum
  {
  }

  lemma SetNameAt(dir: seq<byte>, i: nat, name: CString, j: nat)
    requires i < EntryCapacity(|dir|) && j < EntryCapacity(|dir|) && |name| < MAX_FILE_NAME
    ensures SlotAt(SetName(dir, i, name), j).name == if j == i then name else SlotAt(dir, j).name
  {
    if j != i {
      SpliceOutside(dir, i * ENTRY_SIZE, NameField(name), j * ENTRY_SIZE, j * ENTRY_SIZE + MAX_FILE_NAME);
    } else {
      NameFieldRead(name);
    }
  }

  /** Writing a name field changes the name of that entry and nothing else. */
  lemma SetNameEffect(dir: seq<byte>, i: nat, name: CString)
    requires i < EntryCapacity(|dir|) && |name| < MAX_FILE_NAME
    ensures Slots(SetName(dir, i, name)) == Slots(dir)[i := Slot(name, Slots(dir)[i].inum)]
  {
    forall j: nat | j < EntryCapacity(|dir|)
      ensures SlotAt(SetName(dir, i, name), j) == if j == i then Slot(name, SlotAt(dir, i).inum) else SlotAt(dir, j)
    {
      SetNameAt(dir, i, name, j);
      SetNameKeepsInum(dir, i, name, j);
    }
  }

  lemma SetInumKeepsName(dir: seq<byte>, i: nat, inum: int, j: nat)
    requires i < EntryCapacity(|dir|) && j < EntryCapacity(|dir|) && -0x8000_0000 <= inum < 0x8000_0000
    ensures SlotAt(SetInum(dir, i, inum), j).name == SlotAt(dir, j).name
  {
    SpliceOutside(dir, i * ENTRY_SIZE + MAX_FILE_NAME, WriteInt32(inum), j * ENTRY_SIZE, j * ENTRY_SIZE + MAX_FILE_NAME);
  }

  lemma SetInumAt(dir: seq<byte>, i: nat, inum: int, j: nat)
    requires i < EntryCapacity(|dir|) && j < EntryCapacity(|dir|) && -0x8000_0000 <= inum < 0x8000_0000
    ensures SlotAt(SetInum(dir, i, inum), j).inum == if j == i then inum else SlotAt(dir, j).inum
  {
    var off := i * ENTRY_SIZE + MAX_FILE_NAME;
    if j != i {
      SpliceOutside(dir, off, WriteInt32(inum), j * ENTRY_SIZE + MAX_FILE_NAME, j * ENTRY_SIZE + ENTRY_SIZE);
    } else {
      Int32RoundTrip(inum);
    }
  }

  /** Writing an inumber field changes the inumber of that entry and nothing else. */
  lemma SetInumEffect(dir: seq<byte>, i: nat, inum: int)
    requires i < EntryCapacity(|dir|) && -0x8000_0000 <= inum < 0x8000_0000
    ensures Slots(SetInum(dir, i, inum)) == Slots(dir)[i := Slot(Slots(dir)[i].name, inum)]
  {
    forall j: nat | j < EntryCapacity(|dir|)
      ensures SlotAt(SetInum(dir, i, inum), j) == if j == i then Slot(SlotAt(dir, i).name, inum) else SlotAt(dir, j)
    {
      SetInumAt(dir, i, inum, j);
      SetInumKeepsName(dir, i, inum, j);
    }
  }

  // ---- Scans over the entries ----

  /** Index of the first entry whose name matches, used or not; -1 if none (clear_dir_entry). */
  function IndexByName(s: seq<Slot>, name: CString): (r: int)
    ensures -1 <= r < |s|
    ensures r >= 0 ==> s[r].name == name && forall j :: 0 <= j < r ==> s[j].name != name
    ensures r < 0 ==> forall j :: 0 <= j < |s| ==> s[j].name != name
  {
    if s == [] then -1
    else if s[0].name == name then 0
    else
      var r := IndexByName(s[1..], name);
      if r < 0 then -1 else r + 1
  }

  /** Index of the first entry in use under a name; -1 if none (find_in_dir). */
  function IndexInUse(s: seq<Slot>, name: CString): (r: int)
    ensures -1 <= r < |s|
    ensures r >= 0 ==> s[r].name == name && s[r].inum != -1 && forall j :: 0 <= j < r ==> s[j].name != name || s[j].inum == -1
    ensures r < 0 ==> forall j :: 0 <= j < |s| ==> s[j].name != name || s[j].inum == -1
  {
    if s == [] then -1
    else if s[0].name == name && s[0].inum != -1 then 0
    else
      var r := IndexInUse(s[1..], name);
      if r < 0 then -1 else r + 1
  }

  /** Index of the first free entry; -1 if the directory is full. */
  function FreeIndex(s: seq<Slot>): (r: int)
    ensures -1 <= r < |s|
    ensures r >= 0 ==> s[r].inum == -1 && forall j :: 0 <= j < r ==> s[j].inum != -1
    ensures r < 0 ==> forall j :: 0 <= j < |s| ==> s[j].inum != -1
  {
    if s == [] then -1
    else if s[0].inum == -1 then 0
    else
      var r := FreeIndex(s[1..]);
      if r < 0 then -1 else r + 1
  }

  // ---- The directory as a finite map ----

  /** What every reachable directory satisfies: free slots are nameless, used ones are named uniquely. */
  ghost predicate WellFormed(s: seq<Slot>) {
    && (forall i :: 0 <= i < |s| ==> -1 <= s[i].inum)
    && (forall i :: 0 <= i < |s| && s[i].inum == -1 ==> s[i].name == [])
    && (forall i :: 0 <= i < |s| && s[i].inum != -1 ==> 0 < |s[i].name| < MAX_FILE_NAME)
    && (forall i, j :: 0 <= i < |s| && 0 <= j < |s| && i != j && s[i].inum != -1 && s[j].inum != -1
          ==> s[i].name != s[j].name)
  }

  ghost function UsedIndices(s: seq<Slot>): set<int> {
    set i | 0 <= i < |s| && s[i].inum != -1
  }

  ghost function NameSet(s: seq<Slot>): set<CString> {
    set i | 0 <= i < |s| && s[i].inum != -1 :: s[i].name
  }

  /** The finite map a directory stands for. */
  ghost function Names(s: seq<Slot>): map<CString, int> {
    map name | name in NameSet(s) :: var i := IndexInUse(s, name); if i < 0 then -1 else s[i].inum
  }

  /** The slots that name inode n. */
  ghost function EntriesOf(s: seq<Slot>, n: int): set<int> {
    set i | 0 <= i < |s| && s[i].inum == n
  }

  lemma NamesAt(s: seq<Slot>, i: int)
    requires WellFormed(s) && 0 <= i < |s| && s[i].inum != -1
    ensures s[i].name in Names(s) && Names(s)[s[i].name] == s[i].inum
  {
  }

  /** Lookup by scanning agrees with the map. */
  lemma FindAgrees(s: seq<Slot>, name: CString)
    requires WellFormed(s)
    ensures IndexInUse(s, name) >= 0 <==> name in Names(s)
    ensures IndexInUse(s, name) >= 0 ==> Names(s)[name] == s[IndexInUse(s, name)].inum
    ensures name != [] ==> IndexByName(s, name) == IndexInUse(s, name)
  {
  }

  lemma AddName(s: seq<Slot>, i: int, name: CString, n: int)
    requires 0 <= i < |s| && s[i].inum == -1 && n != -1
    ensures NameSet(s[i := Slot(name, n)]) == NameSet(s) + {name}
  {
    var r := s[i := Slot(name, n)];
    assert r[i].name == name;
    forall x | x in NameSet(s)
      ensures x in NameSet(r)
    {
      var j :| 0 <= j < |s| && s[j].inum != -1 && s[j].name == x;
      assert r[j].name == x;
    }
  }

  lemma RemoveName(s: seq<Slot>, i: int)
    requires WellFormed(s) && 0 <= i < |s| && s[i].inum != -1
    ensures NameSet(s[i := Slot([], -1)]) == NameSet(s) - {s[i].name}
  {
    var r := s[i := Slot([], -1)];
    forall x | x in NameSet(s) && x != s[i].name
      ensures x in NameSet(r)
    {
      var j :| 0 <= j < |s| && s[j].inum != -1 && s[j].name == x;
      assert r[j].name == x;
    }
  }

  /** Two well-formed directories that agree on a used slot bind its name alike. */
  lemma SameBinding(s: seq<Slot>, r: seq<Slot>, x: CString)
    requires WellFormed(s) && WellFormed(r) && |s| == |r|
    requires x in Names(s)
    requires r[IndexInUse(s, x)] == s[IndexInUse(s, x)]
    ensures x in Names(r) && Names(r)[x] == Names(s)[x]
  {
  }

  lemma AddWellFormed(s: seq<Slot>, i: int, name: CString, n: int)
    requires WellFormed(s) && 0 <= i < |s| && s[i].inum == -1
    requires name !in NameSet(s) && 0 < |name| < MAX_FILE_NAME && 0 <= n
    ensures WellFormed(s[i := Slot(name, n)])
  {
  }

  lemma MapAdd(m: map<CString, int>, r: map<CString, int>, k: CString, v: int)
    requires r.Keys == m.Keys + {k} && r[k] == v && k !in m
    requires forall x :: x in m ==> r[x] == m[x]
    ensures r == m[k := v]
  {
  }

  lemma MapRemove(m: map<CString, int>, r: map<CString, int>, k: CString)
    requires r.Keys == m.Keys - {k}
    requires forall x :: x in r ==> r[x] == m[x]
    ensures r == m - {k}
  {
  }

  lemma AddKeeps(s: seq<Slot>, i: int, name: CString, n: int, x: CString)
    requires WellFormed(s) && 0 <= i < |s| && s[i].inum == -1
    requires WellFormed(s[i := Slot(name, n)])
    requires x in Names(s)
    ensures x in Names(s[i := Slot(name, n)]) && Names(s[i := Slot(name, n)])[x] == Names(s)[x]
  {
    FindAgrees(s, x);
    SameBinding(s, s[i := Slot(name, n)], x);
  }

  /** Filling a free slot under a new name adds exactly one binding. */
  lemma AddBinding(s: seq<Slot>, i: int, name: CString, n: int)
    requires WellFormed(s) && 0 <= i < |s| && s[i].inum == -1
    requires name !in Names(s) && 0 < |name| < MAX_FILE_NAME && 0 <= n
    ensures WellFormed(s[i := Slot(name, n)])
    ensures Names(s[i := Slot(name, n)]) == Names(s)[name := n]
  {
    var r := s[i := Slot(name, n)];
    AddWellFormed(s, i, name, n);
    AddName(s, i, name, n);
    NamesAt(r, i);
    var before, after := Names(s), Names(r);
    forall x | x in before
      ensures x in after && after[x] == before[x]
    {
      AddKeeps(s, i, name, n, x);
    }
    MapAdd(before, after, name, n);
  }

  lemma AddEntry(s: seq<Slot>, i: int, name: CString, n: int)
    requires 0 <= i < |s| && s[i].inum == -1 && n != -1
    ensures EntriesOf(s[i := Slot(name, n)], n) == EntriesOf(s, n) + {i}
    ensures i !in EntriesOf(s, n)
    ensures forall m :: m != n && m != -1 ==> EntriesOf(s[i := Slot(name, n)], m) == EntriesOf(s, m)
  {
  }

  lemma AddCount(s: seq<Slot>, i: int, name: CString, n: int)
    requires 0 <= i < |s| && s[i].inum == -1 && n != -1
    ensures |EntriesOf(s[i := Slot(name, n)], n)| == |EntriesOf(s, n)| + 1
    ensures forall m :: m != n && m != -1 ==> EntriesOf(s[i := Slot(name, n)], m) == EntriesOf(s, m)
  {
    AddEntry(s, i, name, n);
  }

  /** Clearing a used slot removes exactly its binding. */
  lemma RemoveBinding(s: seq<Slot>, i: int)
    requires WellFormed(s) && 0 <= i < |s| && s[i].inum != -1
    ensures WellFormed(s[i := Slot([], -1)])
    ensures Names(s[i := Slot([], -1)]) == Names(s) - {s[i].name}
  {
    var r := s[i := Slot([], -1)];
    assert WellFormed(r);
    RemoveName(s, i);
    var before, after := Names(s), Names(r);
    forall x | x in after
      ensures x in before && after[x] == before[x]
    {
      FindAgrees(r, x);
      SameBinding(r, s, x);
    }
    MapRemove(before, after, s[i].name);
  }

  lemma RemoveEntry(s: seq<Slot>, i: int)
    requires 0 <= i < |s| && s[i].inum != -1
    ensures i in EntriesOf(s, s[i].inum)
    ensures EntriesOf(s[i := Slot([], -1)], s[i].inum) == EntriesOf(s, s[i].inum) - {i}
    ensures forall m :: m != s[i].inum && m != -1 ==> EntriesOf(s[i := Slot([], -1)], m) == EntriesOf(s, m)
  {
  }

  lemma RemoveCount(s: seq<Slot>, i: int)
    requires 0 <= i < |s| && s[i].inum != -1
    ensures |EntriesOf(s, s[i].inum)| > 0
    ensures |EntriesOf(s[i := Slot([], -1)], s[i].inum)| == |EntriesOf(s, s[i].inum)| - 1
    ensures forall m :: m != s[i].inum && m != -1 ==> EntriesOf(s[i := Slot([], -1)], m) == EntriesOf(s, m)
  {
    RemoveEntry(s, i);
  }

  /** An inode has an entry exactly when some name is bound to it. */
  lemma EntriesAreNames(s: seq<Slot>, n: int)
    requires WellFormed(s) && n != -1
    ensures EntriesOf(s, n) != {} <==> n in Names(s).Values
    ensures |EntriesOf(s, n)| == 0 <==> n !in Names(s).Values
  {
    if i :| i in EntriesOf(s, n) {
      NamesAt(s, i);
    }
    if n in Names(s).Values {
      var x :| x in Names(s) && Names(s)[x] == n;
      FindAgrees(s, x);
      assert IndexInUse(s, x) in EntriesOf(s, n);
    }
  }

  /** The integers from 0 up to n. */
  ghost function Interval(n: nat): (r: set<int>)
    ensures |r| == n
    ensures forall i :: i in r <==> 0 <= i < n
  {
    if n == 0 then {} else Interval(n - 1) + {n - 1}
  }

  /** The directory is full exactly when it binds as many names as it has slots. */
  lemma FullIffCount(s: seq<Slot>)
    requires WellFormed(s)
    ensures FreeIndex(s) < 0 <==> |Names(s)| >= |s|
  {
    UsedCount(s);
    var all := Interval(|s|);
    assert UsedIndices(s) <= all;
    if FreeIndex(s) < 0 {
      assert UsedIndices(s) == all;
    } else {
      assert FreeIndex(s) in all - UsedIndices(s);
      assert |all - UsedIndices(s)| == |all| - |UsedIndices(s)|;
    }
  }

  lemma RemoveKey(m: map<CString, int>, k: CString)
    requires k in m
    ensures |m - {k}| == |m| - 1
  {
  }

  lemma RemoveUsed(s: seq<Slot>, i: int)
    requires 0 <= i < |s| && s[i].inum != -1
    ensures UsedIndices(s[i := Slot([], -1)]) == UsedIndices(s) - {i}
  {
  }

  /** Names are unique, so there are as many bindings as used slots. */
  lemma {:induction false} UsedCount(s: seq<Slot>)
    requires WellFormed(s)
    ensures |Names(s)| == |UsedIndices(s)|
    decreases |UsedIndices(s)|
  {
    if UsedIndices(s) == {} {
      forall i | 0 <= i < |s|
        ensures s[i].inum == -1
      {
        assert i !in UsedIndices(s);
      }
      assert Names(s).Keys == {};
    } else {
      var i :| i in UsedIndices(s);
      var r := s[i := Slot([], -1)];
      RemoveBinding(s, i);
      NamesAt(s, i);
      RemoveUsed(s, i);
      UsedCount(r);
      RemoveKey(Names(s), s[i].name);
    }
  }
}
