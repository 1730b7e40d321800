/**
 * The words of the frame bitmap (kernel/src/memory/bitmap_frame_allocator.rs): bit f of the bitmap is bit
 * f % 64 of word f / 64, and setting or clearing it by mask changes no other bit.
 */
module Bitmap {
  const WORD := 64

  // ---- One word ------------------------------------------------------------------------------------------

  function Mask(b: nat): bv64
    requires b < WORD
  {
    1 << (b as bv6)
  }

  function With(w: bv64, m: bv64): bv64 {
    w | m
  }

  function Without(w: bv64, m: bv64): bv64 {
    w & !m
  }

  function Common(w: bv64, m: bv64): bv64 {
    w & m
  }

  predicate Bit(w: bv64, b: nat)
    requires b < WORD
  {
    Common(w, Mask(b)) != 0
  }

  lemma BackToInt(b: nat)
    requires b < WORD
    ensures (b as bv6) as int == b
  {
  }

  lemma NextShift(b: bv6)
    requires b < 63
    ensures (1 as bv64) << (b + 1) == ((1 as bv64) << b) << 1
  {
  }

  /** The masks are the powers of two, from bit 0 up. */
  lemma Masks(b: nat)
    requires b < 64
    ensures Mask(b) == if b == 0 then 1 else Mask(b - 1) << 1
  {
    BackToInt(b);
    if b > 0 {
      BackToInt(b - 1);
      NextShift((b - 1) as bv6);
      assert (b - 1) as bv6 + 1 == b as bv6;
    }
  }

  lemma ShiftsApart(b: bv6, c: bv6)
    requires b != c
    ensures ((1 as bv64) << b) & ((1 as bv64) << c) == 0
  {
  }

  lemma MasksApart(b: nat, c: nat)
    requires b < WORD && c < WORD && b != c
    ensures Common(Mask(b), Mask(c)) == 0
  {
    BackToInt(b);
    BackToInt(c);
    ShiftsApart(b as bv6, c as bv6);
  }

  lemma MaskNonzero(b: nat)
    requires b < WORD
    ensures Mask(b) != 0
  {
  }

  lemma WithOther(w: bv64, x: bv64, y: bv64)
    requires Common(x, y) == 0
    ensures Common(With(w, x), y) == Common(w, y)
  {
  }

  lemma WithoutOther(w: bv64, x: bv64, y: bv64)
    requires Common(x, y) == 0
    ensures Common(Without(w, x), y) == Common(w, y)
  {
  }

  lemma WithOwn(w: bv64, x: bv64)
    requires x != 0
    ensures Common(With(w, x), x) != 0
  {
  }

  lemma WithoutOwn(w: bv64, x: bv64)
    ensures Common(Without(w, x), x) == 0
  {
  }

  /** Or-ing the mask of bit b in sets that bit and keeps the others. */
  lemma BitWith(w: bv64, b: nat, c: nat)
    requires b < WORD && c < WORD
    ensures Bit(With(w, Mask(b)), c) <==> c == b || Bit(w, c)
  {
    hide Mask, Common, With;
    if b == c {
      MaskNonzero(b);
      WithOwn(w, Mask(b));
    } else {
      MasksApart(b, c);
      WithOther(w, Mask(b), Mask(c));
    }
  }

  /** And-ing its complement clears it and keeps the others. */
  lemma BitWithout(w: bv64, b: nat, c: nat)
    requires b < WORD && c < WORD
    ensures Bit(Without(w, Mask(b)), c) <==> c != b && Bit(w, c)
  {
    hide Mask, Common, Without;
    if b == c {
      WithoutOwn(w, Mask(b));
    } else {
      MasksApart(b, c);
      WithoutOther(w, Mask(b), Mask(c));
    }
  }

  const FULL: bv64 := 0xFFFF_FFFF_FFFF_FFFF

  lemma FullWord(b: nat)
    requires b < WORD
    ensures Bit(FULL, b)
  {
    MaskNonzero(b);
  }

  /** A word is zero exactly when none of its bits is set. */
  lemma ZeroWord(w: bv64)
    ensures w == 0 <==> forall b: nat :: b < WORD ==> !Bit(w, b)
  {
    if w != 0 {
      var c := SomeBit(w);
      BackToInt(c as int);
      assert Bit(w, c as int);
    }
  }

  /** The lowest set bit of a nonzero word, found by halving. */
  lemma SomeBit(w: bv64) returns (c: bv6)
    requires w != 0
    ensures w & ((1 as bv64) << c) != 0
  {
    var h: bv6 := if w & 0xFFFF_FFFF == 0 then 32 else 0;
    var g: bv6 := if (w >> h) & 0xFFFF == 0 then h + 16 else h;
    var f: bv6 := if (w >> g) & 0xFF == 0 then g + 8 else g;
    var e: bv6 := if (w >> f) & 0xF == 0 then f + 4 else f;
    var d: bv6 := if (w >> e) & 0x3 == 0 then e + 2 else e;
    c := if (w >> d) & 0x1 == 0 then d + 1 else d;
  }

  // ---- The bitmap as a sequence of flags -------------------------------------------------------------------

  predicate Fits(words: seq<bv64>, total: nat) {
    total <= |words| * WORD
  }

  predicate Used(words: seq<bv64>, f: nat)
    requires f / WORD < |words|
  {
    Bit(words[f / WORD], f % WORD)
  }

  function View(words: seq<bv64>, total: nat): (used: seq<bool>)
    requires Fits(words, total)
    ensures |used| == total
    ensures forall f :: 0 <= f < total ==> used[f] == Used(words, f)
  {
    seq(total, f requires 0 <= f < total => Used(words, f))
  }

  /** The word with one bit set, and with one bit cleared, as bitmaps. */
  lemma SetOne(words: seq<bv64>, total: nat, f: nat, g: nat)
    requires Fits(words, total) && f < total && g < total
    ensures var after := words[f / WORD := With(words[f / WORD], Mask(f % WORD))];
            Used(after, g) == (g == f || Used(words, g))
  {
    hide Bit, Mask, With;
    if g / WORD == f / WORD {
      BitWith(words[f / WORD], f % WORD, g % WORD);
    }
  }

  lemma ClearOne(words: seq<bv64>, total: nat, f: nat, g: nat)
    requires Fits(words, total) && f < total && g < total
    ensures var after := words[f / WORD := Without(words[f / WORD], Mask(f % WORD))];
            Used(after, g) == (g != f && Used(words, g))
  {
    hide Bit, Mask, Without;
    if g / WORD == f / WORD {
      BitWithout(words[f / WORD], f % WORD, g % WORD);
    }
  }

  lemma SetView(words: seq<bv64>, total: nat, f: nat)
    requires Fits(words, total) && f < total
    ensures View(words[f / WORD := With(words[f / WORD], Mask(f % WORD))], total) == View(words, total)[f := true]
  {
    hide Used, Mask, With;
    var after := words[f / WORD := With(words[f / WORD], Mask(f % WORD))];
    forall g | 0 <= g < total
      ensures Used(after, g) == (g == f || Used(words, g))
    {
      SetOne(words, total, f, g);
    }
    assert View(after, total) == View(words, total)[f := true];
  }

  lemma ClearView(words: seq<bv64>, total: nat, f: nat)
    requires Fits(words, total) && f < total
    ensures View(words[f / WORD := Without(words[f / WORD], Mask(f % WORD))], total) == View(words, total)[f := false]
  {
    hide Used, Mask, Without;
    var after := words[f / WORD := Without(words[f / WORD], Mask(f % WORD))];
    forall g | 0 <= g < total
      ensures Used(after, g) == (g != f && Used(words, g))
    {
      ClearOne(words, total, f, g);
    }
    assert View(after, total) == View(words, total)[f := false];
  }

  lemma FullView(words: seq<bv64>, total: nat)
    requires Fits(words, total) && forall i :: 0 <= i < |words| ==> words[i] == FULL
    ensures forall f :: 0 <= f < total ==> View(words, total)[f]
  {
    hide Bit;
    forall f | 0 <= f < total
      ensures View(words, total)[f]
    {
      FullWord(f % WORD);
    }
  }

  /** The bits past the last frame are set from the start and stay set. */
  predicate Padded(words: seq<bv64>, total: nat) {
    forall f :: total <= f < |words| * WORD ==> Used(words, f)
  }

  lemma PaddedUpdate(words: seq<bv64>, total: nat, f: nat)
    requires Fits(words, total) && Padded(words, total) && f < total
    ensures Padded(words[f / WORD := With(words[f / WORD], Mask(f % WORD))], total)
    ensures Padded(words[f / WORD := Without(words[f / WORD], Mask(f % WORD))], total)
  {
    hide Used, Mask, With, Without;
    var n := |words| * WORD;
    var raised := words[f / WORD := With(words[f / WORD], Mask(f % WORD))];
    var lowered := words[f / WORD := Without(words[f / WORD], Mask(f % WORD))];
    forall g | total <= g < n
      ensures Used(raised, g)
    {
      SetOne(words, n, f, g);
    }
    forall g | total <= g < n
      ensures Used(lowered, g)
    {
      ClearOne(words, n, f, g);
    }
  }

  /** The word of f is zero exactly when it stands for 64 frames and all of them are free. */
  predicate WordFree(used: seq<bool>, f: nat) {
    f / WORD * WORD + WORD <= |used| && forall g :: 0 <= g < |used| && g / WORD == f / WORD ==> !used[g]
  }

  lemma WordIsZero(words: seq<bv64>, total: nat, f: nat)
    requires Fits(words, total) && Padded(words, total) && f < total
    ensures words[f / WORD] == 0 <==> WordFree(View(words, total), f)
  {
    hide Bit;
    var i := f / WORD;
    ZeroWord(words[i]);
    if words[i] == 0 {
      assert !Used(words, i * WORD + (WORD - 1));
    } else {
      var b: nat :| b < WORD && Bit(words[i], b);
      assert Used(words, i * WORD + b);
    }
  }
}
