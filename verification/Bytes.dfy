/** Bytes, little-endian words and the error type shared by the storage modules. */
module Bytes {

  const SECTOR_SIZE := 512

  type byte = x: int | 0 <= x < 256

  type u16 = x: int | 0 <= x < 65536

  type u32 = x: int | 0 <= x < 0x1_0000_0000

  datatype FsError =
    | NotFound | AlreadyExists | InvalidName | IOError
    | NotSupported | InvalidOffset | NoSpace | DirectoryNotEmpty

  /** Results propagate with `:-`, as they do with `?` in the source. */
  datatype Result<+T> = Ok(value: T) | Err(error: FsError) {
    predicate IsFailure() {
      Err?
    }

    function PropagateFailure<U>(): Result<U> {
      Err(if Err? then error else IOError)
    }

    function Extract(): T
      requires Ok?
    {
      value
    }
  }

  /** A two-byte little-endian word (u16::from_le_bytes). */
  function Le16(lo: byte, hi: byte): u16 {
    lo + 256 * hi
  }

  function Le32(b0: byte, b1: byte, b2: byte, b3: byte): u32 {
    b0 + 256 * (b1 + 256 * (b2 + 256 * b3))
  }

  /** The bytes of a word (u16::to_le_bytes); Le16 reads them back. */
  function Lo(w: u16): byte {
    w % 256
  }

  function Hi(w: u16): byte {
    w / 256
  }

  lemma LoHi(w: u16)
    ensures Le16(Lo(w), Hi(w)) == w
  {
  }

  /** The four bytes of a double word, least significant first. */
  function Bytes32(w: u32): (r: seq<byte>)
    ensures |r| == 4 && Le32(r[0], r[1], r[2], r[3]) == w
  {
    [w % 256, w / 256 % 256, w / 256 / 256 % 256, w / 256 / 256 / 256]
  }

  lemma LowByte(b: byte, x: nat)
    ensures (b + 256 * x) % 256 == b && (b + 256 * x) / 256 == x
  {
  }

  lemma Bytes32Le32(b0: byte, b1: byte, b2: byte, b3: byte)
    ensures Bytes32(Le32(b0, b1, b2, b3)) == [b0, b1, b2, b3]
  {
    LowByte(b0, b1 + 256 * (b2 + 256 * b3));
    LowByte(b1, b2 + 256 * b3);
    LowByte(b2, b3);
  }

  function Min(a: int, b: int): int {
    if a < b then a else b
  }

  /** s with its bytes [at, at + |t|) replaced by t. */
  function Splice<T>(s: seq<T>, at: nat, t: seq<T>): (r: seq<T>)
    requires at + |t| <= |s|
    ensures |r| == |s|
    ensures forall k :: 0 <= k < |s| ==> r[k] == if at <= k < at + |t| then t[k - at] else s[k]
  {
    s[..at] + t + s[at + |t|..]
  }
}
