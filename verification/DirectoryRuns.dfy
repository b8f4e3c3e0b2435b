/**
 The directory under any sequence of its three locked sections, from an empty one: it is a finite
 map with a capacity. Interleaved calls are such sequences, since each section holds the lock.
 */
module DirectoryRuns {
  import opened Bytes
  import opened Directory
  import opened FsTypes
  import FsTables
  import FsSteps

  datatype Section = Add(name: CString, inum: int) | Clear(name: CString) | Find(name: CString)

  // ---- On slots ----

  function AddSlot(s: seq<Slot>, inodes: nat, name: CString, n: int): (seq<Slot>, int) {
    if !ValidName(name) || !(0 <= n < inodes) || IndexInUse(s, name) >= 0 || FreeIndex(s) < 0 then (s, -1)
    else (s[FreeIndex(s) := Slot(name, n)], 0)
  }

  function ClearSlot(s: seq<Slot>, name: CString): (seq<Slot>, int) {
    if !ValidName(name) || IndexByName(s, name) < 0 then (s, -1)
    else (s[IndexByName(s, name) := Slot([], -1)], 0)
  }

  function FindSlot(s: seq<Slot>, name: CString): int {
    if !ValidName(name) || IndexInUse(s, name) < 0 then -1 else s[IndexInUse(s, name)].inum
  }

  /** add_dir_entry, clear_dir_entry or find_in_dir, with its result. */
  function Run(s: seq<Slot>, inodes: nat, c: Section): (seq<Slot>, int) {
    match c
    case Add(name, n) => AddSlot(s, inodes, name, n)
    case Clear(name) => ClearSlot(s, name)
    case Find(name) => (s, FindSlot(s, name))
  }

  function RunAll(s: seq<Slot>, inodes: nat, cs: seq<Section>): (seq<Slot>, seq<int>)
    decreases |cs|
  {
    if cs == [] then (s, [])
    else
      var (u, r) := Run(s, inodes, cs[0]);
      var (v, rs) := RunAll(u, inodes, cs[1..]);
      (v, [r] + rs)
  }

  // ---- On a finite map ----

  function OnMap(m: map<CString, int>, capacity: nat, inodes: nat, c: Section): (map<CString, int>, int) {
    match c
    case Add(name, n) =>
      if 1 <= |name| <= 39 && 0 <= n < inodes && name !in m && |m| < capacity then (m[name := n], 0) else (m, -1)
    case Clear(name) => if name in m then (m - {name}, 0) else (m, -1)
    case Find(name) => (m, if name in m then m[name] else -1)
  }

  function AllOnMap(m: map<CString, int>, capacity: nat, inodes: nat, cs: seq<Section>): (map<CString, int>, seq<int>)
    decreases |cs|
  {
    if cs == [] then (m, [])
    else
      var (n, r) := OnMap(m, capacity, inodes, cs[0]);
      var (k, rs) := AllOnMap(n, capacity, inodes, cs[1..]);
      (k, [r] + rs)
  }

  lemma NamesAreValid(s: seq<Slot>, name: CString)
    requires WellFormed(s) && name in Names(s)
    ensures ValidName(name)
  {
    FindAgrees(s, name);
  }

  lemma RunAgrees(s: seq<Slot>, inodes: nat, c: Section)
    requires WellFormed(s)
    ensures WellFormed(Run(s, inodes, c).0) && |Run(s, inodes, c).0| == |s|
    ensures (Names(Run(s, inodes, c).0), Run(s, inodes, c).1) == OnMap(Names(s), |s|, inodes, c)
  {
    hide WellFormed, Names, IndexInUse, IndexByName, FreeIndex;
    FindAgrees(s, c.name);
    FullIffCount(s);
    if c.name in Names(s) {
      NamesAreValid(s, c.name);
    }
    match c
    case Add(name, n) =>
      if Run(s, inodes, c).1 == 0 {
        AddBinding(s, FreeIndex(s), name, n);
      }
    case Clear(name) =>
      if Run(s, inodes, c).1 == 0 {
        RemoveBinding(s, IndexByName(s, name));
      }
    case Find(name) =>
  }

  lemma {:induction false} RunAllAgrees(s: seq<Slot>, inodes: nat, cs: seq<Section>)
    requires WellFormed(s)
    ensures WellFormed(RunAll(s, inodes, cs).0) && |RunAll(s, inodes, cs).0| == |s|
    ensures (Names(RunAll(s, inodes, cs).0), RunAll(s, inodes, cs).1) == AllOnMap(Names(s), |s|, inodes, cs)
    decreases |cs|
  {
    hide WellFormed, Names, Run, OnMap;
    if cs != [] {
      RunAgrees(s, inodes, cs[0]);
      RunAllAgrees(Run(s, inodes, cs[0]).0, inodes, cs[1..]);
    }
  }

  function NoEntries(capacity: nat): seq<Slot> {
    seq(capacity, _ => Slot([], -1))
  }

  /**
   For any sequence of the sections from an empty directory: names stay unique, free slots nameless,
   and every result is what a finite map of that capacity gives.
   */
  lemma EverySequence(capacity: nat, inodes: nat, cs: seq<Section>)
    ensures var (s, results) := RunAll(NoEntries(capacity), inodes, cs);
      && WellFormed(s) && |s| == capacity
      && (Names(s), results) == AllOnMap(map[], capacity, inodes, cs)
  {
    var s := NoEntries(capacity);
    assert WellFormed(s) && Names(s) == map[];
    RunAllAgrees(s, inodes, cs);
  }

  // ---- On the directory block ----

  /** The sections on the bytes of the root's block are these sections on its slots. */
  lemma BlockAgrees(t: FsTables.Tables, name: CString, n: int)
    requires FsTables.Shape(t) && FsTables.RootOk(t)
    ensures var (u, ok) := FsTables.AddDirEntry(t, name, n);
      FsTables.Shape(u) && (FsTables.Dir(u), if ok then 0 else -1) == AddSlot(FsTables.Dir(t), t.p.inodes, name, n)
    ensures var (u, ok) := FsTables.ClearDirEntry(t, name);
      FsTables.Shape(u) && (FsTables.Dir(u), if ok then 0 else -1) == ClearSlot(FsTables.Dir(t), name)
    ensures FsTables.FindInDir(t, name) == FindSlot(FsTables.Dir(t), name)
  {
    if FsTables.AddDirEntry(t, name, n).1 {
      FsSteps.FillSlotEffect(t.data[0], FreeIndex(FsTables.Dir(t)), name, n);
    }
    if FsTables.ClearDirEntry(t, name).1 {
      FsSteps.FillSlotEffect(t.data[0], IndexByName(FsTables.Dir(t), name), [], -1);
    }
  }
}
