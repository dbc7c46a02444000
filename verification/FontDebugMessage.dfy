/**
 The code at both ends of the font debug message: the server measures, allocates and fills
 a buffer through a moving position; the client advances through the message it received.
 */
module FontDebugMessage {
  import opened Bytes
  import opened FontDebug
  import opened Lists

  /** Addition of unsigned ints. */
  function Add(a: Word, n: nat): Word {
    (a + n) % WORD_LIMIT
  }

  lemma AddTwice(a: Word, m: nat, n: nat)
    ensures Add(Add(a, m), n) == Add(a, m + n)
  {}

  /** _font_entry_debug_size_cb, for the glyphs of one cache. */
  method GlyphsSize(glyphs: seq<Glyph>, from: Word) returns (size: Word)
    ensures size == Add(from, |GlyphsBytes(glyphs)|)
  {
    size := from;
    var i := 0;
    while i < |glyphs|
      invariant i <= |glyphs|
      invariant Add(size, |GlyphsBytes(glyphs[i..])|) == Add(from, |GlyphsBytes(glyphs)|)
    {
      assert glyphs[i..][1..] == glyphs[i + 1..];
      AddTwice(size, 32, |GlyphsBytes(glyphs[i + 1..])|);
      size := Add(size, 3 * INT_SIZE + 3 * INT_SIZE + 2 * INT_SIZE);
      i := i + 1;
    }
  }

  /** _font_entry_debug_size_cb */
  method FontSize(fe: Font, from: Word) returns (size: Word)
    requires |fe.caches| < WORD_LIMIT
    ensures size == Add(from, |FontBytes(fe)|)
  {
    hide Add, GlyphsBytes, CacheBytes, Sent, WordBytes, FontBytes;
    var head := INT_SIZE + |Sent(fe.file)| + INT_SIZE + |Sent(fe.name)| + 3 * INT_SIZE + INT_SIZE + INT_SIZE;
    size := Add(from, head);
    AddTwice(from, head, |CachesBytes(fe.caches)|);
    FontLength(fe);
    var i := 0;
    while i < |fe.caches|
      invariant i <= |fe.caches|
      invariant Add(size, |CachesBytes(fe.caches[i..])|) == Add(from, |FontBytes(fe)|)
    {
      assert fe.caches[i..][1..] == fe.caches[i + 1..];
      AddTwice(size, |CacheBytes(fe.caches[i])|, |CachesBytes(fe.caches[i + 1..])|);
      size := CacheSize(fe.caches[i], size);
      i := i + 1;
    }
    AddNothing(size);
  }

  method CacheSize(fc: Cache, from: Word) returns (size: Word)
    ensures size == Add(from, |CacheBytes(fc)|)
  {
    hide Add, GlyphsBytes, WordBytes;
    var head := INT_SIZE + |fc.shmName| + 1 + 2 * INT_SIZE + INT_SIZE;
    AddTwice(from, head, |GlyphsBytes(fc.glyphs)|);
    size := Add(from, head);
    size := GlyphsSize(fc.glyphs, size);
  }

  lemma FontLength(fe: Font)
    requires |fe.caches| < WORD_LIMIT
    ensures |FontBytes(fe)| == 28 + |Sent(fe.file)| + |Sent(fe.name)| + |CachesBytes(fe.caches)|
  {}

  lemma AddNothing(a: Word)
    ensures Add(a, 0) == a
  {}

  lemma MessageLength(rid: Word, fonts: seq<Font>)
    requires Fits(fonts) && |fonts| < WORD_LIMIT
    ensures Add(BASE_SIZE + INT_SIZE, |FontsBytes(fonts)|) == |Message(rid, fonts)| % WORD_LIMIT
  {}

  /** The first pass: exactly the size of the message, as far as an unsigned int can say. */
  method MessageSize(rid: Word, fonts: seq<Font>) returns (size: Word)
    requires Fits(fonts) && |fonts| < WORD_LIMIT
    ensures size == |Message(rid, fonts)| % WORD_LIMIT
  {
    hide Add, FontBytes, Message;
    size := BASE_SIZE + INT_SIZE;
    MessageLength(rid, fonts);
    var i := 0;
    while i < |fonts|
      invariant i <= |fonts| && Fits(fonts[i..])
      invariant Add(size, |FontsBytes(fonts[i..])|) == |Message(rid, fonts)| % WORD_LIMIT
    {
      assert fonts[i..][1..] == fonts[i + 1..];
      AddTwice(size, |FontBytes(fonts[i])|, |FontsBytes(fonts[i + 1..])|);
      size := FontSize(fonts[i], size);
      i := i + 1;
    }
    AddNothing(size);
  }

  /** The allocated buffer and the pointer into it. */
  class MessageBuffer {
    const buf: array<Byte>
    var pos: nat

    ghost predicate Room(n: nat)
      reads this
    {
      pos + n <= buf.Length
    }

    function Out(): seq<Byte>
      requires pos <= buf.Length
      reads this, buf
    {
      buf[..pos]
    }

    constructor (size: nat)
      ensures fresh(buf) && buf.Length == size && pos == 0
    {
      buf := new Byte[size](_ => 0);
      pos := 0;
    }

    /** A memcpy to the position, which moves on; it never goes past the end. */
    method Put(data: seq<Byte>)
      requires Room(|data|)
      modifies this, buf
      ensures pos == old(pos) + |data| && pos <= buf.Length && Out() == old(Out()) + data
    {
      var i := 0;
      while i < |data|
        invariant i <= |data| && pos == old(pos) + i && pos <= buf.Length
        invariant buf[..pos] == old(buf[..pos]) + data[..i]
      {
        buf[pos] := data[i];
        pos := pos + 1;
        i := i + 1;
      }
    }

    method PutGlyphs(glyphs: seq<Glyph>)
      requires Room(|GlyphsBytes(glyphs)|)
      modifies this, buf
      ensures pos <= buf.Length && Out() == old(Out()) + GlyphsBytes(glyphs)
    {
      var i := 0;
      while i < |glyphs|
        invariant i <= |glyphs| && Room(|GlyphsBytes(glyphs[i..])|)
        invariant Out() + GlyphsBytes(glyphs[i..]) == old(Out()) + GlyphsBytes(glyphs)
      {
        assert glyphs[i..][1..] == glyphs[i + 1..];
        Put(WordsBytes(GlyphWords(glyphs[i])));
        i := i + 1;
      }
      assert Out() + [] == Out();
    }

    method PutText(t: Option<Text>)
      requires Room(|TextBytes(t)|)
      modifies this, buf
      ensures pos <= buf.Length && Out() == old(Out()) + TextBytes(t)
    {
      Put(WordBytes(|Sent(t)|));
      Put(Sent(t));
    }

    method PutCache(fc: Cache)
      requires Room(|CacheBytes(fc)|)
      modifies this, buf
      ensures pos <= buf.Length && Out() == old(Out()) + CacheBytes(fc)
    {
      PutText(Some(fc.shmName));
      Put(WordsBytes([fc.size, fc.usage, fc.nglyphs]));
      PutGlyphs(fc.glyphs);
    }

    method PutCaches(caches: seq<Cache>)
      requires Room(|CachesBytes(caches)|)
      modifies this, buf
      ensures pos <= buf.Length && Out() == old(Out()) + CachesBytes(caches)
    {
      hide CacheBytes;
      var i := 0;
      while i < |caches|
        invariant i <= |caches| && Room(|CachesBytes(caches[i..])|)
        invariant Out() + CachesBytes(caches[i..]) == old(Out()) + CachesBytes(caches)
      {
        assert caches[i..][1..] == caches[i + 1..];
        PutCache(caches[i]);
        i := i + 1;
      }
      assert Out() + [] == Out();
    }

    /** _font_entry_debug_cb */
    method PutFont(fe: Font)
      requires |fe.caches| < WORD_LIMIT && Room(|FontBytes(fe)|)
      modifies this, buf
      ensures pos <= buf.Length && Out() == old(Out()) + FontBytes(fe)
    {
      hide TextBytes, WordsBytes, CachesBytes;
      PutText(fe.file);
      PutText(fe.name);
      Put(WordsBytes(FontWords(fe)));
      PutCaches(fe.caches);
    }

    method PutFonts(fonts: seq<Font>)
      requires Fits(fonts) && Room(|FontsBytes(fonts)|)
      modifies this, buf
      ensures pos <= buf.Length && Out() == old(Out()) + FontsBytes(fonts)
    {
      hide FontBytes;
      var i := 0;
      while i < |fonts|
        invariant i <= |fonts| && Fits(fonts[i..]) && Room(|FontsBytes(fonts[i..])|)
        invariant Out() + FontsBytes(fonts[i..]) == old(Out()) + FontsBytes(fonts)
      {
        assert fonts[i..][1..] == fonts[i + 1..];
        PutFont(fonts[i]);
        i := i + 1;
      }
      assert Out() + [] == Out();
    }
  }

  /** _cserve2_cache_font_debug, for messages whose size an unsigned int can hold. */
  method FontDebugMsg(rid: Word, fonts: seq<Font>) returns (out: MessageBuffer)
    requires Fits(fonts) && |fonts| < WORD_LIMIT && |Message(rid, fonts)| < WORD_LIMIT
    ensures fresh(out) && fresh(out.buf) && out.buf[..] == Message(rid, fonts)
  {
    hide FontsBytes, WordBytes, Fits;
    var size := MessageSize(rid, fonts);
    out := new MessageBuffer(size);
    out.Put(WordsBytes([CSERVE2_FONT_DEBUG, rid]));
    out.Put(WordBytes(|fonts|));
    out.PutFonts(fonts);
    assert out.Out() == Message(rid, fonts);
  }

  /** The client's pointer into the message: `left` is what it has not read. */
  class MessageReader {
    var left: seq<Byte>

    constructor (msg: seq<Byte>)
      ensures left == msg
    {
      left := msg;
    }

    /** READIT, within the message. */
    method ReadIt() returns (dst: Word)
      requires ReadWord(left).Got?
      modifies this
      ensures Got(dst, left) == ReadWord(old(left))
    {
      dst := BytesWord(left[..4]);
      left := left[4..];
    }

    method TakeText() returns (s: seq<Byte>)
      requires ReadText(left).Got?
      modifies this
      ensures Got(s, left) == ReadText(old(left))
    {
      var n := ReadIt();
      s := left[..n];
      left := left[n..];
    }

    /** Several words one after the other. */
    method TakeWords(n: nat) returns (ws: seq<Word>)
      requires ReadWords(left, n).Got?
      modifies this
      ensures Got(ws, left) == ReadWords(old(left), n)
    {
      ws := [];
      var k := n;
      assert ws + ReadWords(left, k).value == ReadWords(left, k).value;
      while k > 0
        invariant 0 <= k <= n && ReadWords(left, k).Got?
        invariant ReadWords(old(left), n) == Got(ws + ReadWords(left, k).value, ReadWords(left, k).rest)
      {
        var w := ReadIt();
        assert ws + ([w] + ReadWords(left, k - 1).value) == (ws + [w]) + ReadWords(left, k - 1).value;
        ws := ws + [w];
        k := k - 1;
      }
      assert ws + [] == ws;
    }

    /** _parse_glyph_entry */
    method ParseGlyph() returns (ge: Glyph)
      requires ReadGlyph(left).Got?
      modifies this
      ensures Got(ge, left) == ReadGlyph(old(left))
    {
      var v := TakeWords(8);
      ge := Glyph(v[0], v[1], v[2], v[3], v[4], v[5], v[6], v[7]);
    }

    method ParseGlyphs(n: nat) returns (glyphs: seq<Glyph>)
      requires ReadGlyphs(left, n).Got?
      modifies this
      ensures Got(glyphs, left) == ReadGlyphs(old(left), n)
    {
      hide ReadGlyph;
      glyphs := [];
      var k := n;
      assert glyphs + ReadGlyphs(left, k).value == ReadGlyphs(left, k).value;
      while k > 0
        invariant 0 <= k <= n && ReadGlyphs(left, k).Got?
        invariant ReadGlyphs(old(left), n) == Got(glyphs + ReadGlyphs(left, k).value, ReadGlyphs(left, k).rest)
      {
        var ge := ParseGlyph();
        assert glyphs + ([ge] + ReadGlyphs(left, k - 1).value) == (glyphs + [ge]) + ReadGlyphs(left, k - 1).value;
        glyphs := glyphs + [ge];
        k := k - 1;
      }
      assert glyphs + [] == glyphs;
    }

    /** _parse_cache_entry */
    method ParseCache() returns (ce: ReadCache)
      requires ReadCacheEntry(left).Got?
      modifies this
      ensures Got(ce, left) == ReadCacheEntry(old(left))
    {
      hide ReadText, ReadWords, ReadGlyphs;
      var shmName := TakeText();
      var v := TakeWords(3);
      var glyphs := ParseGlyphs(v[2]);
      ce := ReadCache(shmName, v[0], v[1], glyphs);
    }

    method ParseCaches(n: nat) returns (caches: seq<ReadCache>)
      requires ReadCaches(left, n).Got?
      modifies this
      ensures Got(caches, left) == ReadCaches(old(left), n)
    {
      hide ReadCacheEntry;
      caches := [];
      var k := n;
      assert caches + ReadCaches(left, k).value == ReadCaches(left, k).value;
      while k > 0
        invariant 0 <= k <= n && ReadCaches(left, k).Got?
        invariant ReadCaches(old(left), n) == Got(caches + ReadCaches(left, k).value, ReadCaches(left, k).rest)
      {
        var ce := ParseCache();
        assert caches + ([ce] + ReadCaches(left, k - 1).value) == (caches + [ce]) + ReadCaches(left, k - 1).value;
        caches := caches + [ce];
        k := k - 1;
      }
      assert caches + [] == caches;
    }

    /** _parse_font_entry */
    method ParseFont() returns (fe: ReadFont)
      requires ReadFontEntry(left).Got?
      modifies this
      ensures Got(fe, left) == ReadFontEntry(old(left))
    {
      hide ReadText, ReadWords, ReadCaches;
      var file := TakeText();
      var name := TakeText();
      var v := TakeWords(5);
      var caches := ParseCaches(v[4]);
      fe := ReadFont(Kept(file), Kept(name), v[0], v[1], v[2], v[3], caches);
    }

    /** _debug_msg_read */
    method ParseMessage() returns (fonts: Option<seq<ReadFont>>)
      requires ReadMessage(left).Got?
      modifies this
      ensures Got(fonts, left) == ReadMessage(old(left))
    {
      hide ReadWords, ReadWord, ReadFontEntry;
      var base := TakeWords(2);
      if base[0] != CSERVE2_FONT_DEBUG {
        return None;
      }
      var n := ReadIt();
      ghost var start := left;
      var list: seq<ReadFont> := [];
      var k: nat := n;
      assert list + ReadFonts(left, k).value == ReadFonts(left, k).value;
      while k > 0
        invariant 0 <= k <= n && ReadFonts(left, k).Got?
        invariant ReadFonts(start, n) == Got(list + ReadFonts(left, k).value, ReadFonts(left, k).rest)
      {
        var fe := ParseFont();
        assert list + ([fe] + ReadFonts(left, k - 1).value) == (list + [fe]) + ReadFonts(left, k - 1).value;
        list := list + [fe];
        k := k - 1;
      }
      assert list + [] == list;
      fonts := Some(list);
    }
  }
}
