/**
 * 32-byte directory entries with 8.3 names (kernel/src/filesys/fat16/dir_entry.rs), and the path
 * arithmetic of the filesystem calls. Strings are byte sequences, as `&str` is.
 */
module Names {
  import opened Bytes

  const SPACE: byte := 0x20
  const DOT: byte := 0x2E
  const SLASH: byte := 0x2F
  const DELETED: byte := 0xE5
  const ATTR_DIRECTORY: byte := 0x10
  const ATTR_ARCHIVE: byte := 0x20
  const DOT_NAME: seq<byte> := [DOT]
  const DOTDOT_NAME: seq<byte> := [DOT, DOT]

  /** DirEntry83; `other` is the reserved bytes, the time and the date, which no call looks at. */
  datatype DirEntry = DirEntry(field: seq<byte>, attributes: byte, other: seq<byte>, cluster: u16, size: u32)

  type Entry = e: DirEntry | |e.field| == 11 && |e.other| == 14
    witness DirEntry(seq(11, i => 0), 0, seq(14, i => 0), 0, 0)

  predicate IsFree(e: Entry) {
    e.field[0] == 0
  }

  predicate IsDeleted(e: Entry) {
    e.field[0] == DELETED
  }

  predicate IsLive(e: Entry) {
    !IsFree(e) && !IsDeleted(e)
  }

  /** attributes & ATTR_DIRECTORY != 0, that is, bit 4 of the attributes. */
  predicate IsDirectory(e: Entry) {
    e.attributes % 32 >= 16
  }

  function MarkDeleted(e: Entry): Entry {
    e.(field := e.field[0 := DELETED])
  }

  /** The packed layout of an entry, at the byte offsets of DirEntry83. */
  function Decode(b: seq<byte>): Entry
    requires |b| == 32
  {
    DirEntry(b[..11], b[11], b[12..26], Le16(b[26], b[27]), Le32(b[28], b[29], b[30], b[31]))
  }

  function Encode(e: Entry): (b: seq<byte>)
    ensures |b| == 32
  {
    e.field + [e.attributes] + e.other + [Lo(e.cluster), Hi(e.cluster)] + Bytes32(e.size)
  }

  lemma DecodeEncode(e: Entry)
    ensures Decode(Encode(e)) == e
  {
    var b := Encode(e);
    var t := Bytes32(e.size);
    assert b[..11] == e.field && b[12..26] == e.other;
    assert b[28] == t[0] && b[29] == t[1] && b[30] == t[2] && b[31] == t[3];
  }

  lemma EncodeDecode(b: seq<byte>)
    requires |b| == 32
    ensures Encode(Decode(b)) == b
  {
    var t := Bytes32(Le32(b[28], b[29], b[30], b[31]));
    Bytes32Le32(b[28], b[29], b[30], b[31]);
    assert b == b[..11] + [b[11]] + b[12..26] + [b[26], b[27]] + t;
  }

  /** Where the fields of a slot stand, and how its words are read. */
  lemma SlotLayout(b: seq<byte>)
    requires |b| == 32
    ensures var e := Decode(b);
            && (forall i :: 0 <= i < 11 ==> e.field[i] == b[i]) && e.attributes == b[11]
            && e.cluster == b[26] as int + 256 * (b[27] as int)
            && e.size == b[28] as int + 256 * (b[29] as int) + 65536 * (b[30] as int) + 16777216 * (b[31] as int)
  {
  }

  /** Which slots are never used, deleted and directories. */
  lemma SlotMarks(b: seq<byte>)
    requires |b| == 32
    ensures IsFree(Decode(b)) <==> b[0] == 0x00
    ensures IsDeleted(Decode(b)) <==> b[0] == 0xE5
    ensures IsLive(Decode(b)) <==> b[0] != 0x00 && b[0] != 0xE5
    ensures IsDirectory(Decode(b)) <==> b[11] / 16 % 2 == 1
  {
    assert Decode(b).field[0] == b[0];
  }

  /** What an entry looks like in its slot. */
  lemma EncodedLayout(e: Entry)
    ensures var b := Encode(e);
            && b[..11] == e.field && b[11] == e.attributes && b[12..26] == e.other
            && b[26] == e.cluster % 256 && b[27] == e.cluster / 256
            && b[28] == e.size % 256 && b[29] == e.size / 256 % 256
            && b[30] == e.size / 65536 % 256 && b[31] == e.size / 16777216
  {
    var b := Encode(e);
    assert b[..11] == e.field && b[12..26] == e.other;
    assert b[28..] == Bytes32(e.size);
    assert forall i :: 28 <= i < 32 ==> b[i] == b[28..][i - 28];
  }

  /** Overwriting the first byte or the size field in place is an update of that field. */
  lemma DecodeMark(b: seq<byte>)
    requires |b| == 32
    ensures Decode(b[0 := DELETED]) == MarkDeleted(Decode(b))
  {
    assert b[0 := DELETED][..11] == b[..11][0 := DELETED];
    assert b[0 := DELETED][12..26] == b[12..26];
  }

  lemma DecodeSize(b: seq<byte>, size: u32)
    requires |b| == 32
    ensures Decode(Splice(b, 28, Bytes32(size))) == Decode(b).(size := size)
  {
    var b' := Splice(b, 28, Bytes32(size));
    var t := Bytes32(size);
    assert b'[..11] == b[..11] && b'[12..26] == b[12..26];
    assert b'[28] == t[0] && b'[29] == t[1] && b'[30] == t[2] && b'[31] == t[3];
  }

  /** Index of the first b in s, or |s|. */
  function Position(s: seq<byte>, b: byte): (n: nat)
    ensures n <= |s| && b !in s[..n]
    ensures n < |s| ==> s[n] == b
  {
    if s == [] || s[0] == b then 0 else
      var n := Position(s[1..], b);
      assert s[..n + 1] == [s[0]] + s[1..][..n];
      n + 1
  }

  /** Index of the last b in s (str::rfind), or -1. */
  function RFind(s: seq<byte>, b: byte): (n: int)
    ensures -1 <= n < |s| && forall i :: n < i < |s| ==> s[i] != b
    ensures 0 <= n ==> s[n] == b
  {
    if s == [] then -1
    else if s[|s| - 1] == b then |s| - 1
    else RFind(s[..|s| - 1], b)
  }

  /** Number of bytes of the first UTF-8 sequence of s, or 0 when it is malformed. */
  function Utf8Step(s: seq<byte>): (n: nat)
    requires s != []
    ensures n <= |s|
  {
    var b := s[0];
    if b < 0x80 then 1
    else if 0xC2 <= b < 0xE0 && Tail(s, 1, 0x80, 0xC0) then 2
    else if 0xE0 <= b < 0xF0
            && Tail(s, 1, if b == 0xE0 then 0xA0 else 0x80, if b == 0xED then 0xA0 else 0xC0)
            && Tail(s, 2, 0x80, 0xC0) then 3
    else if 0xF0 <= b < 0xF5
            && Tail(s, 1, if b == 0xF0 then 0x90 else 0x80, if b == 0xF4 then 0x90 else 0xC0)
            && Tail(s, 2, 0x80, 0xC0) && Tail(s, 3, 0x80, 0xC0) then 4
    else 0
  }

  predicate Tail(s: seq<byte>, i: nat, lo: int, hi: int) {
    i < |s| && lo <= s[i] < hi
  }

  /** core::str::from_utf8 accepts s. */
  predicate Utf8(s: seq<byte>) {
    s == [] || (Utf8Step(s) > 0 && Utf8(s[Utf8Step(s)..]))
  }

  lemma {:induction false} AsciiIsUtf8(s: seq<byte>)
    requires forall i :: 0 <= i < |s| ==> s[i] < 0x80
    ensures Utf8(s)
  {
    if s != [] {
      AsciiIsUtf8(s[1..]);
    }
  }

  /** core::str::from_utf8(s).unwrap_or("") */
  function Text(s: seq<byte>): seq<byte> {
    if Utf8(s) then s else []
  }

  /** s cut or space-padded to n bytes. */
  function Pad(s: seq<byte>, n: nat): (r: seq<byte>)
    ensures |r| == n
    ensures forall i :: 0 <= i < n ==> r[i] == if i < |s| then s[i] else SPACE
  {
    s[..Min(|s|, n)] + seq(n - Min(|s|, n), i => SPACE)
  }

  /** The 11 name bytes built from a base and an extension. */
  function Field(base: seq<byte>, ext: seq<byte>): (f: seq<byte>)
    ensures |f| == 11
  {
    Pad(base, 8) + Pad(ext, 3)
  }

  function NewFile(base: seq<byte>, ext: seq<byte>, cluster: u16): Entry {
    DirEntry(Field(base, ext), ATTR_ARCHIVE, seq(14, i => 0), cluster, 0)
  }

  function NewDirectory(name: seq<byte>, cluster: u16): Entry {
    NewFile(name, [], cluster).(attributes := ATTR_DIRECTORY)
  }

  /** The entry `rename` writes: a new name over the old attributes, cluster and size. */
  function Renamed(e: Entry, base: seq<byte>, ext: seq<byte>): Entry {
    e.(field := Field(base, ext))
  }

  /** DirEntry83::get_name; it reads only the 11 name bytes. */
  function FieldName(f: seq<byte>): seq<byte>
    requires |f| == 11
  {
    var name, ext := f[..8], f[8..11];
    var nameEnd, extEnd := Position(name, SPACE), Position(ext, SPACE);
    if extEnd > 0 then Text(name[..nameEnd]) + [DOT] + Text(ext[..extEnd]) else Text(name[..nameEnd])
  }

  function GetName(e: Entry): seq<byte> {
    FieldName(e.field)
  }

  /** How create_file and rename split a name into base and extension. */
  function SplitName(name: seq<byte>): (seq<byte>, seq<byte>) {
    var n := RFind(name, DOT);
    if n < 0 then (name, []) else (name[..n], name[n + 1..])
  }

  /**
   * The names an 8.3 entry can hold: both parts short and free of spaces, and no dot before an
   * empty extension.
   */
  predicate Fits83(name: seq<byte>) {
    var (base, ext) := SplitName(name);
    && |base| <= 8 && |ext| <= 3
    && SPACE !in base && SPACE !in ext
    && (ext == [] ==> DOT !in name)
  }

  /** Joining and splitting at the last dot are inverse. */
  lemma SplitJoin(base: seq<byte>, ext: seq<byte>)
    requires DOT !in ext
    ensures SplitName(base + [DOT] + ext) == (base, ext)
  {
    var name := base + [DOT] + ext;
    var n := RFind(name, DOT);
    assert name[|base|] == DOT;
    assert name[..|base|] == base && name[|base| + 1..] == ext;
  }

  lemma JoinSplit(name: seq<byte>)
    ensures var (base, ext) := SplitName(name);
            && DOT !in ext
            && (DOT in name ==> name == base + [DOT] + ext)
            && (DOT !in name ==> base == name && ext == [])
  {
    var n := RFind(name, DOT);
    if n < 0 {
      assert name[0..] == name;
    } else {
      assert name == name[..n] + [name[n]] + name[n + 1..];
    }
  }

  /** What is left of s after padding it to n bytes and cutting at the first space. */
  function Kept(s: seq<byte>, n: nat): (r: seq<byte>)
    ensures r <= s
    ensures r == s <==> |s| <= n && SPACE !in s
  {
    assert s[..|s|] == s;
    s[..Min(Position(s, SPACE), n)]
  }

  lemma PadKeeps(s: seq<byte>, n: nat)
    ensures var p := Pad(s, n); p[..Position(p, SPACE)] == Kept(s, n)
  {
    var p := Pad(s, n);
    var stop, end := Position(p, SPACE), Position(s, SPACE);
    assert stop >= Min(end, n) by {
      assert forall i :: 0 <= i < Min(end, n) ==> p[i] == s[..end][i];
    }
    assert stop <= Min(end, n) by {
      assert Min(end, n) < n ==> p[end] == SPACE;
      assert forall i :: 0 <= i < stop ==> p[..stop][i] == p[i];
    }
  }

  function Shown(base: seq<byte>, ext: seq<byte>): seq<byte> {
    if ext != [] then Text(base) + [DOT] + Text(ext) else Text(base)
  }

  lemma FieldShows(base: seq<byte>, ext: seq<byte>)
    ensures FieldName(Field(base, ext)) == Shown(Kept(base, 8), Kept(ext, 3))
  {
    var f := Field(base, ext);
    assert f[..8] == Pad(base, 8) && f[8..11] == Pad(ext, 3);
    PadKeeps(base, 8);
    PadKeeps(ext, 3);
  }

  lemma JoinInjective(b: seq<byte>, x: seq<byte>, base: seq<byte>, ext: seq<byte>)
    requires DOT !in x && DOT !in ext
    ensures b + [DOT] + x == base + [DOT] + ext ==> b == base && x == ext
  {
    SplitJoin(b, x);
    SplitJoin(base, ext);
  }

  lemma ShownPlain(name: seq<byte>)
    requires Utf8(name) && DOT !in name
    ensures Shown(Kept(name, 8), []) == name <==> |name| <= 8 && SPACE !in name
  {
    assert |Text(Kept(name, 8))| <= |Kept(name, 8)|;
  }

  lemma ShownDotted(base: seq<byte>, ext: seq<byte>)
    requires Utf8(base) && Utf8(ext) && DOT !in ext
    ensures Shown(Kept(base, 8), Kept(ext, 3)) == base + [DOT] + ext <==>
            |base| <= 8 && |ext| <= 3 && SPACE !in base && SPACE !in ext && ext != []
  {
    var b, x := Kept(base, 8), Kept(ext, 3);
    assert DOT !in Text(x);
    JoinInjective(Text(b), Text(x), base, ext);
    assert |Text(b)| <= |b| && |Text(x)| <= |x|;
  }

  /**
   * The 8.3 round trip: splitting a name, padding it into an entry and reading it back gives the
   * name again exactly when both parts fit and hold no space.
   */
  lemma NameRoundTrip(name: seq<byte>, cluster: u16)
    requires Utf8(SplitName(name).0) && Utf8(SplitName(name).1)
    ensures GetName(NewFile(SplitName(name).0, SplitName(name).1, cluster)) == name <==> Fits83(name)
  {
    var (base, ext) := SplitName(name);
    FieldShows(base, ext);
    JoinSplit(name);
    if DOT in name {
      ShownDotted(base, ext);
    } else {
      ShownPlain(name);
    }
  }

  /** Distinct 8.3 names give distinct name fields, so no two of them share an entry. */
  lemma FieldsDiffer(n: seq<byte>, m: seq<byte>)
    requires Fits83(n) && Fits83(m) && n != m
    requires Utf8(SplitName(n).0) && Utf8(SplitName(n).1) && Utf8(SplitName(m).0) && Utf8(SplitName(m).1)
    ensures Field(SplitName(n).0, SplitName(n).1) != Field(SplitName(m).0, SplitName(m).1)
  {
    NameRoundTrip(n, 0);
    NameRoundTrip(m, 0);
  }

  /** A directory name is not split: it comes back whenever it fits in eight bytes without spaces. */
  lemma DirNameRoundTrip(name: seq<byte>, cluster: u16)
    requires Utf8(name)
    ensures GetName(NewDirectory(name, cluster)) == name <==> |name| <= 8 && SPACE !in name
  {
    FieldShows(name, []);
  }
}
