/** The vocabulary of TecnicoFS calls: parameters, modes, results and path names. */
module FsTypes {
  import opened Bytes
  import opened Directory

  datatype Params = Params(inodes: nat, blocks: nat, handles: nat, blockSize: nat)
  datatype Mode = Mode(create: bool, truncate: bool, append: bool)

  /** What an operation returns: its int or ssize_t code, and the bytes a read delivers. */
  datatype Outcome = Outcome(code: int, bytes: seq<byte>)

  predicate ValidName(name: CString) {
    0 < |name| <= MAX_FILE_NAME - 1
  }

  predicate ValidPath(path: CString) {
    |path| > 1 && path[0] == '/' as byte
  }

  function Min(a: int, b: int): int {
    if a < b then a else b
  }

  /** size_t decrement. */
  function Decrement(k: nat): nat {
    if k == 0 then 0xFFFF_FFFF_FFFF_FFFF else k - 1
  }
}
