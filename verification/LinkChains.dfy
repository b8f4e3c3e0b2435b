/** Following symbolic links: when tfs_open comes to an end, and after how many hops. */
module LinkChains {
  import opened Bytes
  import opened FsTypes
  import opened AbstractFs

  /** k hops are enough to reach a path that is not a symbolic link. */
  predicate Ends(a: Fs, path: CString, k: nat)
    decreases k
  {
    match Next(a, path)
    case None => true
    case Some(next) => k > 0 && Ends(a, next, k - 1)
  }

  /** Exactly k hops reach a path that is not a symbolic link. */
  predicate EndsAfter(a: Fs, path: CString, k: nat)
    decreases k
  {
    match Next(a, path)
    case None => k == 0
    case Some(next) => k > 0 && EndsAfter(a, next, k - 1)
  }

  /** The names of the links met on the way. */
  ghost function Visited(a: Fs, path: CString, k: nat): set<CString>
    requires EndsAfter(a, path, k)
    decreases k
  {
    if k == 0 then {} else {path[1..]} + Visited(a, Next(a, path).value, k - 1)
  }

  lemma {:induction false} EndsHasLength(a: Fs, path: CString, k: nat) returns (d: nat)
    requires Ends(a, path, k)
    ensures d <= k && EndsAfter(a, path, d)
    decreases k
  {
    d := 0;
    if Next(a, path).Some? {
      d := EndsHasLength(a, Next(a, path).value, k - 1);
      d := d + 1;
    }
  }

  lemma {:induction false} LengthUnique(a: Fs, path: CString, j: nat, k: nat)
    requires EndsAfter(a, path, j) && EndsAfter(a, path, k)
    ensures j == k
    decreases j
  {
    if Next(a, path).Some? {
      LengthUnique(a, Next(a, path).value, j - 1, k - 1);
    }
  }

  lemma {:induction false} LengthEnds(a: Fs, path: CString, d: nat, k: nat)
    requires EndsAfter(a, path, d) && d <= k
    ensures Ends(a, path, k) && Follow(a, path, k) == Follow(a, path, d)
    ensures Next(a, Follow(a, path, k)) == None
    decreases d
  {
    if Next(a, path).Some? {
      LengthEnds(a, Next(a, path).value, d - 1, k - 1);
    }
  }

  lemma {:induction false} FollowEnds(a: Fs, path: CString, k: nat)
    requires Next(a, Follow(a, path, k)) == None
    ensures Ends(a, path, k)
    decreases k
  {
    if Next(a, path).Some? && k > 0 {
      FollowEnds(a, Next(a, path).value, k - 1);
    }
  }

  lemma LinkPath(a: Fs, path: CString)
    requires Next(a, path).Some?
    ensures ValidPath(path) && path == ['/' as byte] + path[1..]
    ensures path[1..] in LinkNames(a)
  {
  }

  /** Every link met on a chain of length k is itself the start of a chain of length 1 to k. */
  lemma {:induction false} VisitedLength(a: Fs, path: CString, k: nat, x: CString) returns (j: nat)
    requires EndsAfter(a, path, k) && x in Visited(a, path, k)
    ensures 1 <= j <= k && 0 !in (['/' as byte] + x) && EndsAfter(a, ['/' as byte] + x, j)
    decreases k
  {
    LinkPath(a, path);
    if x == path[1..] {
      j := k;
    } else {
      j := VisitedLength(a, Next(a, path).value, k - 1, x);
    }
  }

  /** No link is met twice, so a chain is no longer than there are links. */
  lemma {:induction false} Pigeonhole(a: Fs, path: CString, k: nat)
    requires EndsAfter(a, path, k)
    ensures |Visited(a, path, k)| == k && Visited(a, path, k) <= LinkNames(a)
    decreases k
  {
    if k > 0 {
      var next := Next(a, path).value;
      Pigeonhole(a, next, k - 1);
      LinkPath(a, path);
      if path[1..] in Visited(a, next, k - 1) {
        var j := VisitedLength(a, next, k - 1, path[1..]);
        LengthUnique(a, path, j, k);
        assert false;
      }
    }
  }

  lemma SubsetSize(s: set<CString>, r: set<CString>)
    requires s <= r
    ensures |s| <= |r|
  {
    assert r == s + (r - s);
  }

  /** A chain that ends at all ends within as many hops as there are symbolic links. */
  lemma HopBound(a: Fs, path: CString, k: nat)
    requires Ends(a, path, k)
    ensures Ends(a, path, |LinkNames(a)|) && Terminates(a, path)
    ensures Follow(a, path, k) == Destination(a, path)
  {
    var d := EndsHasLength(a, path, k);
    Pigeonhole(a, path, d);
    SubsetSize(Visited(a, path, d), LinkNames(a));
    LengthEnds(a, path, d, k);
    LengthEnds(a, path, d, |LinkNames(a)|);
  }

  /** Some number of hops is enough exactly when the checkable condition Terminates holds. */
  lemma TerminatesIff(a: Fs, path: CString)
    ensures Terminates(a, path) <==> Ends(a, path, |LinkNames(a)|)
    ensures forall k: nat :: Ends(a, path, k) ==> Terminates(a, path)
  {
    if Terminates(a, path) {
      FollowEnds(a, path, |LinkNames(a)|);
    }
    forall k: nat | Ends(a, path, k)
      ensures Terminates(a, path)
    {
      HopBound(a, path, k);
    }
  }

  /** Two links that point at each other never resolve. */
  lemma {:induction false} CycleNeverEnds(a: Fs, p: CString, q: CString, k: nat)
    requires Next(a, p) == Some(q) && Next(a, q) == Some(p)
    ensures !Ends(a, p, k) && !Ends(a, q, k)
    decreases k
  {
    if k > 0 {
      CycleNeverEnds(a, p, q, k - 1);
    }
  }
}
