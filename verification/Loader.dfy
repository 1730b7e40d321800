/**
 * Loading the segments of an executable into a new address space (kernel/src/processes/loader.rs:46-113):
 * page by page, file bytes first and zeros after. See "Program Header" in chapter 5 of the System V gABI.
 */
module Loader {
  import opened Bytes

  const PAGE_SIZE := 4096

  datatype ProgramHeader = ProgramHeader(
    load: bool, vaddr: nat, memsz: nat, filesz: nat, offset: nat, writable: bool, executable: bool)

  datatype UserPage = UserPage(bytes: seq<byte>, writable: bool, noExecute: bool)

  // ---- What loading promises, in addresses -------------------------------------------------------------------------

  predicate ByteIn(ph: ProgramHeader, a: nat, p: nat) {
    ph.vaddr <= a < ph.vaddr + ph.memsz && a / 4096 == p
  }

  /** The segment has a byte in page p. */
  ghost predicate Reaches(ph: ProgramHeader, p: nat) {
    exists a: nat :: ByteIn(ph, a, p)
  }

  /** Byte k of the file, counted from the start of the first page, goes to a page of the segment. */
  ghost predicate Copied(ph: ProgramHeader, k: nat) {
    k < ph.filesz && Reaches(ph, ph.vaddr / 4096 + k / 4096)
  }

  /** The segment is not empty, the bytes it copies are in the file, and none of its pages is taken. */
  ghost predicate Fits(ph: ProgramHeader, elf: seq<byte>, mapped: iset<nat>) {
    && ph.memsz > 0
    && (forall k: nat :: Copied(ph, k) ==> ph.offset + k < |elf|)
    && (forall p: nat :: Reaches(ph, p) ==> p !in mapped)
  }

  /** Page p holds the file's bytes as far as they go, then zeros, with the segment's permissions. */
  ghost predicate PageIsImage(ph: ProgramHeader, elf: seq<byte>, p: nat, page: UserPage) {
    && ph.vaddr / 4096 <= p && |page.bytes| == 4096
    && page.writable == ph.writable && page.noExecute == !ph.executable
    && forall b :: 0 <= b < 4096 ==>
         var k := (p - ph.vaddr / 4096) * 4096 + b;
         page.bytes[b] == if k < ph.filesz && ph.offset + k < |elf| then elf[ph.offset + k] else 0
  }

  /** The pages after a segment: its own with their images, and the others as they were. */
  ghost predicate Grown(ph: ProgramHeader, elf: seq<byte>, before: map<nat, UserPage>, after: map<nat, UserPage>) {
    forall p: nat ::
      if Reaches(ph, p) then p in after && PageIsImage(ph, elf, p, after[p])
      else (p in after <==> p in before) && (p in before ==> after[p] == before[p])
  }

  /** Some load header among the first n has a byte in page p. */
  ghost predicate Touched(headers: seq<ProgramHeader>, n: nat, p: nat)
    requires n <= |headers|
  {
    exists i :: 0 <= i < n && headers[i].load && Reaches(headers[i], p)
  }

  /** Every load header fits behind the ones before it. */
  ghost predicate AllFit(headers: seq<ProgramHeader>, elf: seq<byte>) {
    forall i :: 0 <= i < |headers| && headers[i].load ==>
      Fits(headers[i], elf, iset p: nat | Touched(headers, i, p))
  }

  /** The pages are those that some load header has a byte in, and hold its image. */
  ghost predicate Complete(headers: seq<ProgramHeader>, elf: seq<byte>, pages: map<nat, UserPage>) {
    && (forall p: nat :: p in pages <==> Touched(headers, |headers|, p))
    && (forall i, p: nat :: 0 <= i < |headers| && headers[i].load && Reaches(headers[i], p) && p in pages ==>
          PageIsImage(headers[i], elf, p, pages[p]))
  }

  // ---- What a segment should look like -----------------------------------------------------------------------------

  function StartPage(ph: ProgramHeader): nat {
    ph.vaddr / PAGE_SIZE
  }

  function EndPage(ph: ProgramHeader): nat
    requires ph.memsz > 0
  {
    (ph.vaddr + (ph.memsz - 1)) / PAGE_SIZE
  }

  /** Pages from the one that holds the first byte to the one that holds the last. */
  function Span(ph: ProgramHeader): (n: nat)
    requires ph.memsz > 0
    ensures n >= 1
  {
    EndPage(ph) - StartPage(ph) + 1
  }

  /** Byte k of the segment, counted from its first page: from the file, and zero after. */
  function Image(ph: ProgramHeader, elf: seq<byte>, k: nat): byte {
    if k < ph.filesz then (if ph.offset + k < |elf| then elf[ph.offset + k] else 0) else 0
  }

  /** The file bytes that are copied are there: the ones that fit the pages, if there are any. */
  predicate Readable(ph: ProgramHeader, elf: seq<byte>, pages: nat) {
    var copied := Min(ph.filesz, pages * PAGE_SIZE);
    copied == 0 || ph.offset + copied <= |elf|
  }

  /** The load does not panic. */
  predicate Loadable(ph: ProgramHeader, elf: seq<byte>, mapped: set<nat>) {
    && ph.memsz > 0
    && Readable(ph, elf, Span(ph))
    && (forall p :: p in mapped ==> !(StartPage(ph) <= p < StartPage(ph) + Span(ph)))
  }

  predicate PageLoaded(ph: ProgramHeader, elf: seq<byte>, i: nat, page: UserPage) {
    && |page.bytes| == PAGE_SIZE && page.writable == ph.writable && page.noExecute == !ph.executable
    && (forall b :: 0 <= b < PAGE_SIZE ==> page.bytes[b] == Image(ph, elf, i * PAGE_SIZE + b))
  }

  /** The first n pages of the segment hold its image. */
  ghost predicate Loaded(ph: ProgramHeader, elf: seq<byte>, pages: map<nat, UserPage>, n: nat) {
    forall p: nat :: StartPage(ph) <= p < StartPage(ph) + n ==>
      p in pages && PageLoaded(ph, elf, p - StartPage(ph), pages[p])
  }

  /** Nothing but those pages is new, and the others are as they were. */
  ghost predicate Added(ph: ProgramHeader, before: map<nat, UserPage>, after: map<nat, UserPage>, n: nat) {
    forall p: nat :: !(StartPage(ph) <= p < StartPage(ph) + n) ==>
      (p in after <==> p in before) && (p in before ==> after[p] == before[p])
  }

  // ---- One page ----------------------------------------------------------------------------------------------------

  /** What copying the file bytes and zeroing the rest leaves of a frame, whatever was in it. */
  function Filled(frame: seq<byte>, src: seq<byte>, bss: nat): (r: seq<byte>)
    requires |frame| == PAGE_SIZE && |src| == Min(bss, PAGE_SIZE)
    ensures |r| == PAGE_SIZE
    ensures forall b :: 0 <= b < PAGE_SIZE ==> r[b] == if b < bss then src[b] else 0
  {
    var copied := src + frame[|src|..];
    if bss < PAGE_SIZE then copied[..bss] + seq(PAGE_SIZE - bss, _ => 0) else copied
  }

  /** The bytes copied into page i are the file's, and the image ends where the zeros begin. */
  lemma PageIs(ph: ProgramHeader, elf: seq<byte>, i: nat, frame: seq<byte>)
    requires |frame| == PAGE_SIZE
    requires var bss := if ph.filesz > i * PAGE_SIZE then ph.filesz - i * PAGE_SIZE else 0;
             bss > 0 ==> ph.offset + i * PAGE_SIZE + Min(bss, PAGE_SIZE) <= |elf|
    ensures var bss := if ph.filesz > i * PAGE_SIZE then ph.filesz - i * PAGE_SIZE else 0;
            var at := ph.offset + i * PAGE_SIZE;
            var src := if bss > 0 then elf[at..at + Min(bss, PAGE_SIZE)] else [];
            PageLoaded(ph, elf, i, UserPage(Filled(frame, src, bss), ph.writable, !ph.executable))
  {
  }

  // ---- The page loop -----------------------------------------------------------------------------------------------

  /** The contents of a frame before it is mapped: anything. */
  type Frame = s: seq<byte> | |s| == PAGE_SIZE witness seq(PAGE_SIZE, _ => 0)

  class AddressSpace {
    // The user pages mapped so far.
    var pages: map<nat, UserPage>

    constructor ()
      ensures pages == map[]
    {
      pages := map[];
    }

    /** The body of the page loop for page i of the segment; frame is what the new frame held. */
    method LoadPage(ph: ProgramHeader, elf: seq<byte>, i: nat, frame: Frame) returns (ok: bool)
      requires Readable(ph, elf, i)
      modifies this
      ensures ok <==> StartPage(ph) + i !in old(pages) && Readable(ph, elf, i + 1)
      ensures ok ==> exists page :: PageLoaded(ph, elf, i, page) && pages == old(pages)[StartPage(ph) + i := page]
    {
      var page := StartPage(ph) + i;
      if page in pages {
        return false;
      }
      var pageOffset := page * PAGE_SIZE - StartPage(ph) * PAGE_SIZE;
      var left := if ph.filesz > pageOffset then ph.filesz - pageOffset else 0;
      var toCopy := Min(left, PAGE_SIZE);
      var src := [];
      if toCopy > 0 {
        if ph.offset + pageOffset + toCopy > |elf| {
          return false;
        }
        src := elf[ph.offset + pageOffset..ph.offset + pageOffset + toCopy];
      }
      PageIs(ph, elf, i, frame);
      pages := pages[page := UserPage(Filled(frame, src, left), ph.writable, !ph.executable)];
      return true;
    }

    /** One segment; false is a panic. */
    method LoadSegment(ph: ProgramHeader, elf: seq<byte>, frames: nat -> Frame) returns (ok: bool)
      modifies this
      ensures ok <==> Loadable(ph, elf, old(pages).Keys)
      ensures ok <==> Fits(ph, elf, iset p | p in old(pages))
      ensures ok ==> Grown(ph, elf, old(pages), pages)
      ensures ok ==> Loaded(ph, elf, pages, Span(ph)) && Added(ph, old(pages), pages, Span(ph))
    {
      hide PageLoaded, StartPage, EndPage, Readable, Fits, Grown;
      LoadableFits(ph, elf, pages.Keys);
      if ph.memsz == 0 {
        return false;
      }
      ghost var before := pages;
      ReadableNone(ph, elf);
      var i, n := 0, Span(ph);
      while i < n
        invariant 0 <= i <= n
        invariant Readable(ph, elf, i) && Loaded(ph, elf, pages, i) && Added(ph, before, pages, i)
        invariant forall p :: p in before ==> !(StartPage(ph) <= p < StartPage(ph) + i)
      {
        if Readable(ph, elf, n) {
          ReadableLess(ph, elf, i + 1, n);
        }
        var fine := LoadPage(ph, elf, i, frames(StartPage(ph) + i));
        if !fine {
          return false;
        }
        i := i + 1;
      }
      LoadedGrown(ph, elf, before, pages);
      return true;
    }

    /** All segments of the executable, other headers skipped; false is a panic. */
    method LoadElf(headers: seq<ProgramHeader>, elf: seq<byte>, frames: nat -> Frame) returns (ok: bool)
      requires pages == map[]
      modifies this
      ensures ok <==> AllLoadable(headers, elf, |headers|)
      ensures ok <==> AllFit(headers, elf)
      ensures ok ==> AllLoaded(headers, elf, pages, |headers|)
      ensures ok ==> Complete(headers, elf, pages)
    {
      hide Loadable, Loaded, Added, AllLoaded, AllLoadable, AllFit, Complete;
      LoadableAll(headers, elf);
      NothingLoaded(headers, elf);
      for i := 0 to |headers|
        invariant AllLoadable(headers, elf, i) && AllLoaded(headers, elf, pages, i)
      {
        NextLoadable(headers, elf, pages, i);
        if !headers[i].load {
          SkippedLoaded(headers, elf, pages, i);
          continue;
        }
        ghost var before := pages;
        var fine := LoadSegment(headers[i], elf, frames);
        if !fine {
          LoadableLess(headers, elf, i + 1);
          return false;
        }
        LoadedSpan(headers[i], elf, before.Keys);
        NextLoaded(headers, elf, before, pages, i);
      }
      LoadedAll(headers, elf, pages);
      return true;
    }
  }

  // ---- Pages and addresses agree -------------------------------------------------------------------------------------

  /** The pages from the first to the last are those that hold a byte of the segment. */
  lemma SpanIs(ph: ProgramHeader, p: nat)
    requires ph.memsz > 0
    ensures StartPage(ph) <= p < StartPage(ph) + Span(ph) <==> Reaches(ph, p)
  {
    if StartPage(ph) <= p < StartPage(ph) + Span(ph) {
      var a := if p == StartPage(ph) then ph.vaddr else p * 4096;
      assert ByteIn(ph, a, p);
    }
  }

  lemma ReadableIs(ph: ProgramHeader, elf: seq<byte>)
    requires ph.memsz > 0
    ensures Readable(ph, elf, Span(ph)) <==> forall k: nat :: Copied(ph, k) ==> ph.offset + k < |elf|
  {
    hide Reaches, Span;
    var n := Min(ph.filesz, Span(ph) * 4096);
    forall k: nat
      ensures Copied(ph, k) <==> k < n
    {
      SpanIs(ph, ph.vaddr / 4096 + k / 4096);
    }
    if n > 0 {
      assert Copied(ph, n - 1);
    }
  }

  lemma LoadableFits(ph: ProgramHeader, elf: seq<byte>, mapped: set<nat>)
    ensures Loadable(ph, elf, mapped) <==> Fits(ph, elf, iset p | p in mapped)
  {
    hide Readable, Copied, Reaches, Span, StartPage;
    if ph.memsz > 0 {
      ReadableIs(ph, elf);
      forall p: nat | p in mapped
        ensures StartPage(ph) <= p < StartPage(ph) + Span(ph) <==> Reaches(ph, p)
      {
        SpanIs(ph, p);
      }
      assert (forall p: nat :: Reaches(ph, p) ==> p !in mapped) <==> (forall p: nat :: p in mapped ==> !Reaches(ph, p));
    }
  }

  lemma LoadedPage(ph: ProgramHeader, elf: seq<byte>, p: nat, page: UserPage)
    requires StartPage(ph) <= p
    ensures PageLoaded(ph, elf, p - StartPage(ph), page) ==> PageIsImage(ph, elf, p, page)
  {
  }

  lemma LoadedGrown(ph: ProgramHeader, elf: seq<byte>, before: map<nat, UserPage>, after: map<nat, UserPage>)
    requires ph.memsz > 0 && Loaded(ph, elf, after, Span(ph)) && Added(ph, before, after, Span(ph))
    ensures Grown(ph, elf, before, after)
  {
    hide Reaches, Span, PageLoaded, PageIsImage, StartPage;
    forall p: nat
      ensures if Reaches(ph, p) then p in after && PageIsImage(ph, elf, p, after[p])
              else (p in after <==> p in before) && (p in before ==> after[p] == before[p])
    {
      SpanIs(ph, p);
      if Reaches(ph, p) {
        LoadedPage(ph, elf, p, after[p]);
      }
    }
  }

  lemma OwnsIs(headers: seq<ProgramHeader>, n: nat, p: nat)
    requires n <= |headers|
    ensures OwnPage(headers, n, p) <==> Touched(headers, n, p)
  {
    hide Reaches, Owns;
    forall i | 0 <= i < n
      ensures Owns(headers[i], p) <==> headers[i].load && Reaches(headers[i], p)
    {
      OwnsReaches(headers[i], p);
    }
  }

  lemma OwnsReaches(ph: ProgramHeader, p: nat)
    ensures Owns(ph, p) <==> ph.load && Reaches(ph, p)
  {
    hide Span, StartPage;
    if ph.memsz > 0 {
      SpanIs(ph, p);
    } else {
      assert forall a: nat :: !ByteIn(ph, a, p);
    }
  }

  lemma LoadableAll(headers: seq<ProgramHeader>, elf: seq<byte>)
    ensures AllLoadable(headers, elf, |headers|) <==> AllFit(headers, elf)
  {
    hide Readable, Reaches, Copied, Owns, Span;
    forall i | 0 <= i < |headers|
      ensures headers[i].memsz > 0 ==>
                (Readable(headers[i], elf, Span(headers[i]))
                 <==> forall k: nat :: Copied(headers[i], k) ==> headers[i].offset + k < |elf|)
    {
      if headers[i].memsz > 0 {
        ReadableIs(headers[i], elf);
      }
    }
    forall i, p: nat | 0 <= i < |headers|
      ensures Owns(headers[i], p) <==> headers[i].load && Reaches(headers[i], p)
    {
      OwnsReaches(headers[i], p);
    }
    if AllFit(headers, elf) {
      forall i, j, p: nat | 0 <= i < j < |headers| && Owns(headers[i], p)
        ensures !Owns(headers[j], p)
      {
        assert Touched(headers, j, p);
      }
    }
  }

  lemma LoadedAll(headers: seq<ProgramHeader>, elf: seq<byte>, pages: map<nat, UserPage>)
    requires AllLoadable(headers, elf, |headers|) && AllLoaded(headers, elf, pages, |headers|)
    ensures Complete(headers, elf, pages)
  {
    hide Readable, Reaches, Owns, Span, PageLoaded, PageIsImage, StartPage, OwnPage, Touched;
    forall p: nat
      ensures p in pages <==> Touched(headers, |headers|, p)
    {
      OwnsIs(headers, |headers|, p);
    }
    forall i, p: nat | 0 <= i < |headers| && headers[i].load && Reaches(headers[i], p) && p in pages
      ensures PageIsImage(headers[i], elf, p, pages[p])
    {
      SpanIs(headers[i], p);
      LoadedPage(headers[i], elf, p, pages[p]);
    }
  }

  lemma LoadedSpan(ph: ProgramHeader, elf: seq<byte>, mapped: set<nat>)
    requires Loadable(ph, elf, mapped)
    ensures ph.memsz > 0
  {
  }

  lemma NothingLoaded(headers: seq<ProgramHeader>, elf: seq<byte>)
    ensures AllLoadable(headers, elf, 0) && AllLoaded(headers, elf, map[], 0)
  {
  }

  lemma LoadableLess(headers: seq<ProgramHeader>, elf: seq<byte>, n: nat)
    requires n <= |headers|
    ensures AllLoadable(headers, elf, |headers|) ==> AllLoadable(headers, elf, n)
  {
    hide Readable, Owns, Span;
  }

  /** A page of one of the first n segments. */
  ghost predicate OwnPage(headers: seq<ProgramHeader>, n: nat, p: nat)
    requires n <= |headers|
  {
    exists i :: 0 <= i < n && Owns(headers[i], p)
  }

  predicate Owns(ph: ProgramHeader, p: nat) {
    ph.load && ph.memsz > 0 && StartPage(ph) <= p < StartPage(ph) + Span(ph)
  }

  /** The first n segments load: each on its own, and no two share a page. */
  ghost predicate AllLoadable(headers: seq<ProgramHeader>, elf: seq<byte>, n: nat)
    requires n <= |headers|
  {
    && (forall i :: 0 <= i < n && headers[i].load ==> headers[i].memsz > 0 && Readable(headers[i], elf, Span(headers[i])))
    && (forall i, j, p: nat :: 0 <= i < j < n && Owns(headers[i], p) ==> !Owns(headers[j], p))
  }

  /** What is mapped after n segments are their pages, with their images. */
  ghost predicate AllLoaded(headers: seq<ProgramHeader>, elf: seq<byte>, pages: map<nat, UserPage>, n: nat)
    requires n <= |headers|
  {
    && (forall p: nat :: p in pages <==> OwnPage(headers, n, p))
    && (forall i :: 0 <= i < n && headers[i].load && headers[i].memsz > 0 ==>
          Loaded(headers[i], elf, pages, Span(headers[i])))
  }

  lemma NextLoadable(headers: seq<ProgramHeader>, elf: seq<byte>, pages: map<nat, UserPage>, n: nat)
    requires n < |headers| && AllLoadable(headers, elf, n) && AllLoaded(headers, elf, pages, n)
    ensures AllLoadable(headers, elf, n + 1) <==> (headers[n].load ==> Loadable(headers[n], elf, pages.Keys))
  {
    hide Readable, Loaded;
    var ph := headers[n];
    if ph.load && Loadable(ph, elf, pages.Keys) {
      forall i, p: nat | 0 <= i < n && Owns(headers[i], p)
        ensures !Owns(ph, p)
      {
        assert OwnPage(headers, n, p);
      }
    }
    if ph.load && AllLoadable(headers, elf, n + 1) {
      forall p | p in pages
        ensures !(StartPage(ph) <= p < StartPage(ph) + Span(ph))
      {
        assert OwnPage(headers, n, p);
        var i :| 0 <= i < n && Owns(headers[i], p);
        assert !Owns(headers[n], p);
      }
    }
  }

  lemma NextLoaded(headers: seq<ProgramHeader>, elf: seq<byte>, before: map<nat, UserPage>, after: map<nat, UserPage>, n: nat)
    requires n < |headers| && AllLoaded(headers, elf, before, n) && headers[n].load
    requires Loadable(headers[n], elf, before.Keys)
    requires Loaded(headers[n], elf, after, Span(headers[n])) && Added(headers[n], before, after, Span(headers[n]))
    ensures AllLoaded(headers, elf, after, n + 1)
  {
    hide Readable, Loaded, Added, Span, StartPage, OwnPage;
    var ph := headers[n];
    forall p: nat
      ensures p in after <==> OwnPage(headers, n + 1, p)
    {
      NextPages(headers, elf, before, after, n, p);
    }
    forall i | 0 <= i < n && headers[i].load && headers[i].memsz > 0
      ensures Loaded(headers[i], elf, after, Span(headers[i]))
    {
      assert Loaded(headers[i], elf, before, Span(headers[i]));
      StillLoaded(headers[i], elf, ph, before, after, Span(headers[i]), Span(ph));
    }
  }

  lemma NextPages(headers: seq<ProgramHeader>, elf: seq<byte>, before: map<nat, UserPage>, after: map<nat, UserPage>,
                  n: nat, p: nat)
    requires n < |headers| && headers[n].load && headers[n].memsz > 0 && (p in before <==> OwnPage(headers, n, p))
    requires Loaded(headers[n], elf, after, Span(headers[n])) && Added(headers[n], before, after, Span(headers[n]))
    ensures p in after <==> OwnPage(headers, n + 1, p)
  {
    hide PageLoaded, Span, StartPage;
    if Owns(headers[n], p) {
      assert OwnPage(headers, n + 1, p);
    } else {
      assert OwnPage(headers, n + 1, p) <==> OwnPage(headers, n, p);
    }
  }

  /** Adding other pages leaves a loaded segment loaded. */
  lemma StillLoaded(ph: ProgramHeader, elf: seq<byte>, other: ProgramHeader,
                    before: map<nat, UserPage>, after: map<nat, UserPage>, n: nat, m: nat)
    requires Loaded(ph, elf, before, n) && Added(other, before, after, m)
    requires forall p :: p in before ==> !(StartPage(other) <= p < StartPage(other) + m)
    ensures Loaded(ph, elf, after, n)
  {
    hide PageLoaded, StartPage;
    forall p: nat | StartPage(ph) <= p < StartPage(ph) + n
      ensures p in after && PageLoaded(ph, elf, p - StartPage(ph), after[p])
    {
      assert p in before;
    }
  }

  lemma SkippedLoaded(headers: seq<ProgramHeader>, elf: seq<byte>, pages: map<nat, UserPage>, n: nat)
    requires n < |headers| && AllLoaded(headers, elf, pages, n) && !headers[n].load
    ensures AllLoaded(headers, elf, pages, n + 1)
  {
    hide Loaded;
    forall p: nat
      ensures OwnPage(headers, n + 1, p) <==> OwnPage(headers, n, p)
    {
    }
  }

  lemma ReadableNone(ph: ProgramHeader, elf: seq<byte>)
    ensures Readable(ph, elf, 0)
  {
  }

  lemma ReadableLess(ph: ProgramHeader, elf: seq<byte>, m: nat, n: nat)
    requires m <= n && Readable(ph, elf, n)
    ensures Readable(ph, elf, m)
  {
  }

  // ---- Where the bytes end up ----------------------------------------------------------------------------------------

  /** The byte at an address, if its page is mapped. */
  predicate Holds(pages: map<nat, UserPage>, address: nat, b: byte) {
    && address / PAGE_SIZE in pages
    && |pages[address / PAGE_SIZE].bytes| == PAGE_SIZE
    && pages[address / PAGE_SIZE].bytes[address % PAGE_SIZE] == b
  }

  /** The image starts at the start of the segment's first page, and runs to the end of its last. */
  lemma ImageFromPageStart(ph: ProgramHeader, elf: seq<byte>, pages: map<nat, UserPage>, k: nat)
    requires ph.memsz > 0 && Loaded(ph, elf, pages, Span(ph)) && k < Span(ph) * PAGE_SIZE
    ensures Holds(pages, StartPage(ph) * PAGE_SIZE + k, Image(ph, elf, k))
  {
    hide Image, Span;
    var address := StartPage(ph) * PAGE_SIZE + k;
    var p := address / PAGE_SIZE;
    assert p == StartPage(ph) + k / PAGE_SIZE && address % PAGE_SIZE == k % PAGE_SIZE;
    assert PageLoaded(ph, elf, p - StartPage(ph), pages[p]);
  }

  /** For a page-aligned segment: file bytes from p_vaddr on, then zeros through the end of the last page. */
  lemma AlignedSegment(ph: ProgramHeader, elf: seq<byte>, pages: map<nat, UserPage>, k: nat)
    requires ph.vaddr % PAGE_SIZE == 0 && 0 < ph.memsz && ph.filesz <= ph.memsz
    requires Loaded(ph, elf, pages, Span(ph)) && Readable(ph, elf, Span(ph)) && k < Span(ph) * PAGE_SIZE
    ensures k < ph.filesz ==> ph.offset + k < |elf| && Holds(pages, ph.vaddr + k, elf[ph.offset + k])
    ensures k >= ph.filesz ==> Holds(pages, ph.vaddr + k, 0)
  {
    hide Loaded, Holds, Span;
    ImageFromPageStart(ph, elf, pages, k);
    SpanCovers(ph);
    assert StartPage(ph) * PAGE_SIZE == ph.vaddr;
  }

  lemma SpanCovers(ph: ProgramHeader)
    requires ph.memsz > 0
    ensures ph.vaddr % PAGE_SIZE + ph.memsz <= Span(ph) * PAGE_SIZE
  {
  }

  /** The file's bytes stand where the header asks for them. */
  ghost predicate InPlace(ph: ProgramHeader, elf: seq<byte>, pages: map<nat, UserPage>) {
    forall x :: ph.offset <= x < ph.offset + Min(ph.filesz, ph.memsz) && x < |elf| ==>
      Holds(pages, ph.vaddr + (x - ph.offset), elf[x])
  }

  /** A file whose first byte of the segment is 1, and all others 0. */
  function OneByte(ph: ProgramHeader): seq<byte> {
    seq(ph.offset + ph.filesz, i => if i == ph.offset then 1 else 0)
  }

  /** Alignment is what it takes: an unaligned segment is shifted down to the start of its page. */
  lemma UnalignedShifted(ph: ProgramHeader, pages: map<nat, UserPage>)
    requires ph.vaddr % PAGE_SIZE != 0 && 0 < ph.filesz <= ph.memsz
    requires Loaded(ph, OneByte(ph), pages, Span(ph))
    ensures !InPlace(ph, OneByte(ph), pages)
  {
    hide Loaded;
    var k := ph.vaddr % PAGE_SIZE;
    SpanCovers(ph);
    ImageFromPageStart(ph, OneByte(ph), pages, k);
    assert Image(ph, OneByte(ph), k) == 0;
    assert OneByte(ph)[ph.offset] == 1;
    assert StartPage(ph) * PAGE_SIZE + k == ph.vaddr;
    assert !Holds(pages, ph.vaddr, 1);
    assert ph.vaddr + (ph.offset - ph.offset) == ph.vaddr;
  }

  lemma AlignedInPlace(ph: ProgramHeader, elf: seq<byte>, pages: map<nat, UserPage>)
    requires ph.vaddr % PAGE_SIZE == 0 && 0 < ph.memsz && ph.filesz <= ph.memsz
    requires Loaded(ph, elf, pages, Span(ph)) && Readable(ph, elf, Span(ph))
    ensures InPlace(ph, elf, pages)
  {
    hide Loaded, Holds, Readable;
    SpanCovers(ph);
    forall x | ph.offset <= x < ph.offset + ph.filesz && x < |elf|
      ensures Holds(pages, ph.vaddr + (x - ph.offset), elf[x])
    {
      AlignedSegment(ph, elf, pages, x - ph.offset);
    }
  }
}
