/** Bytes, C strings and the in-place copies the C code makes with memcpy. */
module Bytes {

  type byte = x: int | 0 <= x < 256

  /** The characters of a C string, without its terminator. */
  type CString = s: seq<byte> | 0 !in s

  datatype Option<+T> = None | Some(value: T)

  /** strlen of a buffer: the position of the first NUL, or the whole buffer if there is none. */
  function StrLen(b: seq<byte>): (n: nat)
    ensures n <= |b|
    ensures forall i :: 0 <= i < n ==> b[i] != 0
    ensures n < |b| ==> b[n] == 0
  {
    if b == [] || b[0] == 0 then 0 else 1 + StrLen(b[1..])
  }

  /** The C string that starts at the beginning of a buffer. */
  function Str(b: seq<byte>): CString {
    b[..StrLen(b)]
  }

  function Zeros(n: nat): (z: seq<byte>)
    ensures |z| == n && forall i :: 0 <= i < n ==> z[i] == 0
  {
    seq(n, _ => 0)
  }

  /** A terminated string reads back whatever follows its terminator. */
  lemma StrTerminated(s: CString, rest: seq<byte>)
    ensures Str(s + [0] + rest) == s
    ensures StrLen(s + [0] + rest) == |s|
  {
    var b := s + [0] + rest;
    assert forall i :: 0 <= i < |s| ==> b[i] == s[i] && s[i] in s;
    assert b[|s|] == 0;
    assert b[..|s|] == s;
  }

  /** memcpy(b + off, src, |src|). */
  function Splice(b: seq<byte>, off: nat, src: seq<byte>): (r: seq<byte>)
    requires off + |src| <= |b|
    ensures |r| == |b|
    ensures r[off..off + |src|] == src
    ensures r[..off] == b[..off] && r[off + |src|..] == b[off + |src|..]
  {
    b[..off] + src + b[off + |src|..]
  }

  /** A slice that a copy does not overlap is unchanged by it. */
  lemma SpliceOutside(b: seq<byte>, off: nat, src: seq<byte>, lo: nat, hi: nat)
    requires off + |src| <= |b| && lo <= hi <= |b|
    requires hi <= off || off + |src| <= lo
    ensures Splice(b, off, src)[lo..hi] == b[lo..hi]
  {
  }
}
