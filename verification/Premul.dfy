/**
 Premultiplying the pixels of a loaded image by their alpha, four channels to a 32-bit
 word, and counting the pixels that are opaque or fully transparent.
 */
module Premul {
  import opened Bytes

  const ALPHA_SPARSE_INV_FRACTION := 3

  /** Byte k of a word, the lowest being 0: blue, green, red, alpha. */
  function ByteOf(n: Word, k: nat): (b: nat)
    requires k < 4
    ensures b < 256
  {
    if k == 0 then n % 256 else if k == 1 then n / 256 % 256 else if k == 2 then n / 65536 % 256 else n / 16777216
  }

  /** n & mask, for a mask of whole bytes. */
  function And(n: Word, keep3: bool, keep2: bool, keep1: bool, keep0: bool): Word {
    (if keep3 then ByteOf(n, 3) * 16777216 else 0) + (if keep2 then ByteOf(n, 2) * 65536 else 0)
    + (if keep1 then ByteOf(n, 1) * 256 else 0) + (if keep0 then ByteOf(n, 0) else 0)
  }

  /** Unsigned arithmetic of the machine. */
  function Times(x: nat, y: nat): Word {
    x * y % WORD_LIMIT
  }

  function Plus(x: Word, y: Word): Word {
    (x + y) % WORD_LIMIT
  }

  /** The statement in the loop of evas_cserve2_convert_argb_premul, for one pixel. */
  function PremulPixel(p: Word): Word {
    var a := 1 + Top(p);
    Plus(Plus(And(p, true, false, false, false), GreenLane(p, a)), RedBlueLanes(p, a))
  }

  /** p >> 24 */
  function Top(p: Word): Word {
    p / 16777216
  }

  /** The second line of it. */
  function GreenLane(p: Word, a: nat): Word {
    And(Times(And(p / 256, false, false, false, true), a), false, false, true, false)
  }

  /** The third line: red and blue in one multiplication. */
  function RedBlueLanes(p: Word, a: nat): Word {
    And(Times(And(p, false, true, false, true), a) / 256, false, true, false, true)
  }

  /** A channel scaled by an alpha. */
  function Scaled(c: nat, alpha: nat): nat {
    c * (alpha + 1) / 256
  }

  lemma ProductBound(c: nat, a: nat)
    requires c < 256
    ensures c * a <= 255 * a
  {}

  /** Scaling never goes above alpha, and full alpha changes nothing. */
  lemma ScaledBound(c: nat, alpha: nat)
    requires c < 256 && alpha < 256
    ensures Scaled(c, alpha) <= alpha && c * (alpha + 1) <= 65280
    ensures alpha == 255 ==> Scaled(c, alpha) == c
  {
    ProductBound(c, alpha + 1);
    var x := c * (alpha + 1);
    assert x <= 255 * alpha + 255;
    if alpha == 255 { DivIs(x, 256, c, 0); }
  }

  /** Red and blue are multiplied in one word: neither reaches the other, nor the word's end. */
  lemma TwoLanes(r: nat, b: nat, alpha: nat)
    requires r < 256 && b < 256 && alpha < 256
    ensures And(Times(r * 65536 + b, alpha + 1) / 256, false, true, false, true)
            == Scaled(r, alpha) * 65536 + Scaled(b, alpha)
  {
    hide And;
    ScaledBound(r, alpha);
    ScaledBound(b, alpha);
    var x, y := r * (alpha + 1), b * (alpha + 1);
    Distribute(r, b, alpha + 1);
    TwoBytes(x, y);
    Unwrapped(x * 65536 + y);
  }

  lemma Distribute(r: nat, b: nat, a: nat)
    ensures (r * 65536 + b) * a == r * a * 65536 + b * a
  {}

  lemma Unwrapped(n: nat)
    requires n < WORD_LIMIT
    ensures n % WORD_LIMIT == n
  {}

  lemma TwoBytes(x: nat, y: nat)
    requires x <= 65280 && y <= 65280
    ensures x * 65536 + y < WORD_LIMIT
    ensures And((x * 65536 + y) / 256, false, true, false, true) == x / 256 * 65536 + y / 256
  {
    var n := (x * 65536 + y) / 256;
    assert n == x * 256 + y / 256;
    DivIs(n, 256, x, y / 256);
    DivIs(n, 65536, x / 256, x % 256 * 256 + y / 256);
  }

  lemma OneLane(g: nat, alpha: nat)
    requires g < 256 && alpha < 256
    ensures And(Times(g, alpha + 1), false, false, true, false) == Scaled(g, alpha) * 256
  {
    ScaledBound(g, alpha);
    hide And;
    var x := g * (alpha + 1);
    Unwrapped(x);
    MiddleByte(x);
  }

  lemma MiddleByte(x: nat)
    requires x <= 65280
    ensures And(x, false, false, true, false) == x / 256 * 256
  {}

  lemma DivIs(n: nat, d: nat, q: nat, r: nat)
    requires n == q * d + r && r < d
    ensures n / d == q && n % d == r
  {
    var k := n / d - q;
    assert k * d == r - n % d;
    NoMultiple(k, d);
  }

  lemma NoMultiple(k: int, d: int)
    requires 0 < d && -d < k * d < d
    ensures k == 0
  {
    assert k >= 1 ==> k * d >= d;
    assert k <= -1 ==> k * d <= -d;
  }

  lemma Lanes(a: nat, r: nat, g: nat, b: nat)
    requires a < 256 && r < 256 && g < 256 && b < 256
    ensures var n := a * 16777216 + g * 256 + (r * 65536 + b);
            n < WORD_LIMIT && ByteOf(n, 3) == a && ByteOf(n, 2) == r && ByteOf(n, 1) == g && ByteOf(n, 0) == b
  {
    var n := a * 16777216 + g * 256 + (r * 65536 + b);
    DivIs(n, 16777216, a, r * 65536 + g * 256 + b);
    DivIs(n, 65536, a * 256 + r, g * 256 + b);
    DivIs(n, 256, a * 65536 + r * 256 + g, b);
    DivIs(a * 256 + r, 256, a, r);
    DivIs(a * 65536 + r * 256 + g, 256, a * 256 + r, g);
  }

  /** A word is its four bytes. */
  lemma Recompose(n: Word)
    ensures n == ByteOf(n, 3) * 16777216 + ByteOf(n, 1) * 256 + (ByteOf(n, 2) * 65536 + ByteOf(n, 0))
  {
    var a, b, c := n / 256, n / 65536, n / 16777216;
    assert n == 256 * a + n % 256;
    assert a / 256 == b && a == 256 * b + a % 256;
    assert b / 256 == c && b == 256 * c + b % 256;
  }

  lemma LanesAre(p: Word)
    ensures var al := ByteOf(p, 3);
            && Scaled(ByteOf(p, 0), al) < 256 && Scaled(ByteOf(p, 1), al) < 256 && Scaled(ByteOf(p, 2), al) < 256
            && Top(p) == al && And(p, true, false, false, false) == al * 16777216
            && GreenLane(p, al + 1) == Scaled(ByteOf(p, 1), al) * 256
            && RedBlueLanes(p, al + 1) == Scaled(ByteOf(p, 2), al) * 65536 + Scaled(ByteOf(p, 0), al)
  {
    hide ByteOf, And, Times, Scaled, Top;
    ScaledBound(ByteOf(p, 0), ByteOf(p, 3));
    ScaledBound(ByteOf(p, 1), ByteOf(p, 3));
    ScaledBound(ByteOf(p, 2), ByteOf(p, 3));
    Masks(p);
    TwoLanes(ByteOf(p, 2), ByteOf(p, 0), ByteOf(p, 3));
    OneLane(ByteOf(p, 1), ByteOf(p, 3));
  }

  lemma PremulIs(p: Word)
    ensures var al := ByteOf(p, 3);
            PremulPixel(p) == al * 16777216 + Scaled(ByteOf(p, 1), al) * 256
                              + (Scaled(ByteOf(p, 2), al) * 65536 + Scaled(ByteOf(p, 0), al))
  {
    hide ByteOf, And, Scaled, Plus, GreenLane, RedBlueLanes, Top, PremulPixel;
    LanesAre(p);
    PixelIs(p, ByteOf(p, 3), Scaled(ByteOf(p, 2), ByteOf(p, 3)), Scaled(ByteOf(p, 1), ByteOf(p, 3)),
            Scaled(ByteOf(p, 0), ByteOf(p, 3)));
  }

  lemma PixelIs(p: Word, a: nat, r: nat, g: nat, b: nat)
    requires a < 256 && r < 256 && g < 256 && b < 256 && Top(p) == a
    requires And(p, true, false, false, false) == a * 16777216
    requires GreenLane(p, a + 1) == g * 256 && RedBlueLanes(p, a + 1) == r * 65536 + b
    ensures PremulPixel(p) == a * 16777216 + g * 256 + (r * 65536 + b)
  {
    hide And, Plus, GreenLane, RedBlueLanes, Top;
    SumOfLanes(a, r, g, b);
  }

  lemma SumOfLanes(a: nat, r: nat, g: nat, b: nat)
    requires a < 256 && r < 256 && g < 256 && b < 256
    ensures a * 16777216 < WORD_LIMIT && g * 256 < WORD_LIMIT && r * 65536 + b < WORD_LIMIT
    ensures Plus(Plus(a * 16777216, g * 256), r * 65536 + b) == a * 16777216 + g * 256 + (r * 65536 + b)
  {}

  lemma Masks(p: Word)
    ensures Top(p) == ByteOf(p, 3)
    ensures And(p, true, false, false, false) == ByteOf(p, 3) * 16777216
    ensures And(p / 256, false, false, false, true) == ByteOf(p, 1)
    ensures And(p, false, true, false, true) == ByteOf(p, 2) * 65536 + ByteOf(p, 0)
  {}

  /** Each channel becomes c * (alpha + 1) / 256 rounded down, and alpha stays. */
  lemma PremulChannels(p: Word)
    ensures ByteOf(PremulPixel(p), 3) == ByteOf(p, 3)
    ensures forall k {:trigger ByteOf(PremulPixel(p), k)} :: 0 <= k < 3 ==>
              ByteOf(PremulPixel(p), k) == Scaled(ByteOf(p, k), ByteOf(p, 3))
  {
    hide ByteOf, PremulPixel, Scaled;
    var al, r, g, b := ByteOf(p, 3), ByteOf(p, 2), ByteOf(p, 1), ByteOf(p, 0);
    PremulIs(p);
    ScaledBound(r, al);
    ScaledBound(g, al);
    ScaledBound(b, al);
    Lanes(al, Scaled(r, al), Scaled(g, al), Scaled(b, al));
  }

  /** The result is premultiplied: no channel is above alpha; opaque pixels do not change. */
  lemma PremulBelowAlpha(p: Word, k: nat)
    requires k < 3
    ensures ByteOf(PremulPixel(p), k) <= ByteOf(p, 3)
    ensures ByteOf(p, 3) == 255 ==> PremulPixel(p) == p
  {
    hide ByteOf, PremulPixel, Scaled;
    PremulChannels(p);
    ScaledBound(ByteOf(p, k), ByteOf(p, 3));
    if ByteOf(p, 3) == 255 {
      Recompose(p);
      Recompose(PremulPixel(p));
      ScaledBound(ByteOf(p, 0), 255);
      ScaledBound(ByteOf(p, 1), 255);
      ScaledBound(ByteOf(p, 2), 255);
    }
  }

  // ----- the count ------------------------------------------------------------------

  predicate Plain(p: Word) {
    ByteOf(p, 3) == 0 || ByteOf(p, 3) == 255
  }

  /** How many pixels are fully transparent or opaque. */
  function PlainCount(ps: seq<Word>): (n: nat)
    ensures n <= |ps|
  {
    if ps == [] then 0 else PlainCount(ps[..|ps| - 1]) + if Plain(ps[|ps| - 1]) then 1 else 0
  }

  function AllPremul(ps: seq<Word>): (r: seq<Word>)
    ensures |r| == |ps|
    ensures forall i {:trigger r[i]} :: 0 <= i < |ps| ==> r[i] == PremulPixel(ps[i])
  {
    if ps == [] then [] else AllPremul(ps[..|ps| - 1]) + [PremulPixel(ps[|ps| - 1])]
  }

  /** The count is the same before and after, so when it is taken does not matter. */
  lemma {:induction false} CountUnchanged(ps: seq<Word>)
    ensures PlainCount(AllPremul(ps)) == PlainCount(ps)
  {
    if ps != [] {
      var n := |ps| - 1;
      CountUnchanged(ps[..n]);
      PremulChannels(ps[n]);
      assert AllPremul(ps)[..n] == AllPremul(ps[..n]);
    }
  }

  /** The test both functions end with. */
  predicate Sparse(nas: Word, len: Word) {
    Times(ALPHA_SPARSE_INV_FRACTION, nas) >= len
  }

  class LoadParams {
    const buffer: array<Word>
    const alpha: bool
    var alphaSparse: bool

    constructor (buffer: array<Word>, alpha: bool)
      ensures this.buffer == buffer && this.alpha == alpha && !alphaSparse
    {
      this.buffer, this.alpha, alphaSparse := buffer, alpha, false;
    }

    /** evas_cserve2_convert_argb_premul */
    method ConvertArgbPremul() returns (nas: Word)
      requires buffer.Length < WORD_LIMIT
      modifies buffer
      ensures buffer[..] == AllPremul(old(buffer[..])) && nas == PlainCount(old(buffer[..]))
    {
      hide PremulPixel;
      nas := 0;
      var i := 0;
      while i < buffer.Length
        invariant i <= buffer.Length && nas == PlainCount(old(buffer[..i]))
        invariant buffer[..i] == AllPremul(old(buffer[..i])) && buffer[i..] == old(buffer[i..])
      {
        assert old(buffer[..i + 1])[..i] == old(buffer[..i]);
        assert buffer[i] == buffer[i..][0] == old(buffer[i..])[0] == old(buffer[i]);
        var a := 1 + ByteOf(buffer[i], 3);
        buffer[i] := PremulPixel(buffer[i]);
        if a == 1 || a == 256 {
          nas := nas + 1;
        }
        assert buffer[..i + 1] == buffer[..i] + [buffer[i]];
        i := i + 1;
      }
      assert buffer[..i] == buffer[..] && old(buffer[..i]) == old(buffer[..]);
    }

    /** evas_cserve2_image_premul */
    method ImagePremul()
      requires buffer.Length < WORD_LIMIT
      modifies this, buffer
      ensures buffer[..] == if alpha then AllPremul(old(buffer[..])) else old(buffer[..])
      ensures alphaSparse == (old(alphaSparse) || (alpha && Sparse(PlainCount(old(buffer[..])), buffer.Length)))
    {
      if !alpha {
        return;
      }
      var nas := ConvertArgbPremul();
      if Sparse(nas, buffer.Length) {
        alphaSparse := true;
      }
    }

    /** evas_cserve2_imave_alpha_sparse_set */
    method AlphaSparseSet()
      requires buffer.Length < WORD_LIMIT
      modifies this
      ensures alphaSparse == (old(alphaSparse) || (alpha && Sparse(PlainCount(buffer[..]), buffer.Length)))
    {
      if !alpha {
        return;
      }
      var nas: Word := 0;
      var s := 0;
      while s < buffer.Length
        invariant s <= buffer.Length && nas == PlainCount(buffer[..s])
      {
        assert buffer[..s + 1][..s] == buffer[..s];
        var p := And(buffer[s], true, false, false, false);
        if p == 0 || p == 0xff000000 {
          nas := nas + 1;
        }
        s := s + 1;
      }
      assert buffer[..s] == buffer[..];
      if Sparse(nas, buffer.Length) {
        alphaSparse := true;
      }
    }
  }
}
