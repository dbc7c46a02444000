/**
 The font debug message: what the server writes about its fonts, their caches and glyphs,
 and what the debug client reads back.
 */
module FontDebug {
  import opened Bytes
  import opened Lists

  const CSERVE2_FONT_DEBUG := 17
  const INT_SIZE := 4
  const BASE_SIZE := 8

  /** A C string without its NUL, short enough for its length to be an unsigned int. */
  type Text = s: seq<Byte> | |s| + 1 < WORD_LIMIT

  datatype Glyph = Glyph(index: Word, offset: Word, size: Word, rows: Word, width: Word, pitch: Word,
                         numGrays: Word, pixelMode: Word)

  /** `nglyphs` is the counter kept beside the list. */
  datatype Cache = Cache(shmName: Text, size: Word, usage: Word, nglyphs: Word, glyphs: seq<Glyph>)

  datatype Font = Font(file: Option<Text>, name: Option<Text>, rendFlags: Word, size: Word, dpi: Word,
                       unused: bool, caches: seq<Cache>)

  /** What the client builds; the strings it keeps have the NUL that was sent. */
  datatype ReadCache = ReadCache(shmName: seq<Byte>, size: Word, usage: Word, glyphs: seq<Glyph>)

  datatype ReadFont = ReadFont(file: Option<seq<Byte>>, name: Option<seq<Byte>>, rendFlags: Word,
                               size: Word, dpi: Word, unused: Word, caches: seq<ReadCache>)

  /** Reading past the end of the message, or a value and what follows it. */
  datatype Got<T> = Overrun | Got(value: T, rest: seq<Byte>)

  // ----- writing --------------------------------------------------------------------

  function WordsBytes(ws: seq<Word>): (b: seq<Byte>)
    ensures |b| == 4 * |ws|
  {
    if ws == [] then [] else WordBytes(ws[0]) + WordsBytes(ws[1..])
  }

  function Sent(t: Option<Text>): (b: seq<Byte>)
    ensures |b| < WORD_LIMIT
  {
    if t.None? then [] else t.value + [0]
  }

  function TextBytes(t: Option<Text>): seq<Byte> {
    WordBytes(|Sent(t)|) + Sent(t)
  }

  function GlyphWords(g: Glyph): (ws: seq<Word>)
    ensures |ws| == 8
  {
    [g.index, g.offset, g.size, g.rows, g.width, g.pitch, g.numGrays, g.pixelMode]
  }

  function GlyphsBytes(gs: seq<Glyph>): seq<Byte> {
    if gs == [] then [] else WordsBytes(GlyphWords(gs[0])) + GlyphsBytes(gs[1..])
  }

  function CacheBytes(c: Cache): seq<Byte> {
    TextBytes(Some(c.shmName)) + (WordsBytes([c.size, c.usage, c.nglyphs]) + GlyphsBytes(c.glyphs))
  }

  function CachesBytes(cs: seq<Cache>): seq<Byte> {
    if cs == [] then [] else CacheBytes(cs[0]) + CachesBytes(cs[1..])
  }

  function FontWords(f: Font): seq<Word>
    requires |f.caches| < WORD_LIMIT
  {
    [f.rendFlags, f.size, f.dpi, if f.unused then 1 else 0, |f.caches|]
  }

  function FontBytes(f: Font): seq<Byte>
    requires |f.caches| < WORD_LIMIT
  {
    TextBytes(f.file) + (TextBytes(f.name) + (WordsBytes(FontWords(f)) + CachesBytes(f.caches)))
  }

  ghost predicate Fits(fs: seq<Font>) {
    fs == [] || (|fs[0].caches| < WORD_LIMIT && Fits(fs[1..]))
  }

  ghost function FontsBytes(fs: seq<Font>): seq<Byte>
    requires Fits(fs)
  {
    if fs == [] then [] else FontBytes(fs[0]) + FontsBytes(fs[1..])
  }

  /** The whole message: its base, the number of fonts, the fonts. */
  ghost function Message(rid: Word, fs: seq<Font>): seq<Byte>
    requires Fits(fs) && |fs| < WORD_LIMIT
  {
    WordsBytes([CSERVE2_FONT_DEBUG, rid]) + (WordBytes(|fs|) + FontsBytes(fs))
  }

  // ----- reading --------------------------------------------------------------------

  function ReadWord(b: seq<Byte>): Got<Word> {
    if |b| < 4 then Overrun else Got(BytesWord(b[..4]), b[4..])
  }

  function ReadWords(b: seq<Byte>, n: nat): (r: Got<seq<Word>>)
    ensures r.Got? ==> |r.value| == n
    decreases n
  {
    if n == 0 then Got([], b)
    else
      var w := ReadWord(b);
      if w.Overrun? then Overrun
      else
        var ws := ReadWords(w.rest, n - 1);
        if ws.Overrun? then Overrun else Got([w.value] + ws.value, ws.rest)
  }

  function ReadText(b: seq<Byte>): Got<seq<Byte>> {
    var n := ReadWord(b);
    if n.Overrun? || |n.rest| < n.value then Overrun else Got(n.rest[..n.value], n.rest[n.value..])
  }

  /** _parse_glyph_entry */
  function ReadGlyph(b: seq<Byte>): Got<Glyph> {
    var ws := ReadWords(b, 8);
    if ws.Overrun? then Overrun
    else
      var v := ws.value;
      Got(Glyph(v[0], v[1], v[2], v[3], v[4], v[5], v[6], v[7]), ws.rest)
  }

  function ReadGlyphs(b: seq<Byte>, n: nat): (r: Got<seq<Glyph>>)
    ensures r.Got? ==> |r.value| == n
    decreases n
  {
    if n == 0 then Got([], b)
    else
      var g := ReadGlyph(b);
      if g.Overrun? then Overrun
      else
        var gs := ReadGlyphs(g.rest, n - 1);
        if gs.Overrun? then Overrun else Got([g.value] + gs.value, gs.rest)
  }

  /** _parse_cache_entry */
  function ReadCacheEntry(b: seq<Byte>): Got<ReadCache> {
    var name := ReadText(b);
    if name.Overrun? then Overrun
    else
      var ws := ReadWords(name.rest, 3);
      if ws.Overrun? then Overrun
      else
        var gs := ReadGlyphs(ws.rest, ws.value[2]);
        if gs.Overrun? then Overrun
        else Got(ReadCache(name.value, ws.value[0], ws.value[1], gs.value), gs.rest)
  }

  function ReadCaches(b: seq<Byte>, n: nat): (r: Got<seq<ReadCache>>)
    ensures r.Got? ==> |r.value| == n
    decreases n
  {
    if n == 0 then Got([], b)
    else
      var c := ReadCacheEntry(b);
      if c.Overrun? then Overrun
      else
        var cs := ReadCaches(c.rest, n - 1);
        if cs.Overrun? then Overrun else Got([c.value] + cs.value, cs.rest)
  }

  function Kept(t: seq<Byte>): Option<seq<Byte>> {
    if t == [] then None else Some(t)
  }

  /** _parse_font_entry */
  function ReadFontEntry(b: seq<Byte>): Got<ReadFont> {
    var file := ReadText(b);
    if file.Overrun? then Overrun
    else
      var name := ReadText(file.rest);
      if name.Overrun? then Overrun
      else
        var ws := ReadWords(name.rest, 5);
        if ws.Overrun? then Overrun
        else
          var v := ws.value;
          var cs := ReadCaches(ws.rest, v[4]);
          if cs.Overrun? then Overrun
          else Got(ReadFont(Kept(file.value), Kept(name.value), v[0], v[1], v[2], v[3], cs.value), cs.rest)
  }

  function ReadFonts(b: seq<Byte>, n: nat): (r: Got<seq<ReadFont>>)
    ensures r.Got? ==> |r.value| == n
    decreases n
  {
    if n == 0 then Got([], b)
    else
      var f := ReadFontEntry(b);
      if f.Overrun? then Overrun
      else
        var fs := ReadFonts(f.rest, n - 1);
        if fs.Overrun? then Overrun else Got([f.value] + fs.value, fs.rest)
  }

  /** _debug_msg_read, on the message received: None when its type is not the expected one. */
  function ReadMessage(b: seq<Byte>): Got<Option<seq<ReadFont>>> {
    var base := ReadWords(b, 2);
    if base.Overrun? then Overrun
    else if base.value[0] != CSERVE2_FONT_DEBUG then Got(None, base.rest)
    else
      var n := ReadWord(base.rest);
      if n.Overrun? then Overrun
      else
        var fs := ReadFonts(n.rest, n.value);
        if fs.Overrun? then Overrun else Got(Some(fs.value), fs.rest)
  }

  // ----- what should be read --------------------------------------------------------

  function CacheView(c: Cache): ReadCache {
    ReadCache(c.shmName + [0], c.size, c.usage, c.glyphs)
  }

  function CacheViews(cs: seq<Cache>): (v: seq<ReadCache>)
    ensures |v| == |cs|
  {
    if cs == [] then [] else [CacheView(cs[0])] + CacheViews(cs[1..])
  }

  function FontView(f: Font): ReadFont {
    ReadFont(Kept(Sent(f.file)), Kept(Sent(f.name)), f.rendFlags, f.size, f.dpi,
             if f.unused then 1 else 0, CacheViews(f.caches))
  }

  function FontViews(fs: seq<Font>): (v: seq<ReadFont>)
    ensures |v| == |fs|
  {
    if fs == [] then [] else [FontView(fs[0])] + FontViews(fs[1..])
  }

  /** The counter beside every glyph list is its length. */
  predicate CountedCaches(cs: seq<Cache>) {
    cs == [] || (cs[0].nglyphs == |cs[0].glyphs| && CountedCaches(cs[1..]))
  }

  predicate Counted(fs: seq<Font>) {
    fs == [] || (CountedCaches(fs[0].caches) && Counted(fs[1..]))
  }

  /** The strings come back: NULL as NULL, and a string as itself with its NUL. */
  lemma StringsComeBack(t: Option<Text>)
    ensures Kept(Sent(t)) == if t.None? then None else Some(t.value + [0])
  {}

  // ----- layer by layer -------------------------------------------------------------

  lemma WordBack(w: Word, rest: seq<Byte>)
    ensures ReadWord(WordBytes(w) + rest) == Got(w, rest)
  {
    var b := WordBytes(w) + rest;
    assert b[..4] == WordBytes(w) && b[4..] == rest;
    WordRoundTrip(w);
  }

  lemma {:induction false} WordsBack(ws: seq<Word>, rest: seq<Byte>)
    ensures ReadWords(WordsBytes(ws) + rest, |ws|) == Got(ws, rest)
  {
    hide WordBytes, BytesWord, ReadWord;
    if ws == [] {
      assert WordsBytes(ws) + rest == rest;
    } else {
      assert WordsBytes(ws) + rest == WordBytes(ws[0]) + (WordsBytes(ws[1..]) + rest);
      WordBack(ws[0], WordsBytes(ws[1..]) + rest);
      WordsBack(ws[1..], rest);
      assert [ws[0]] + ws[1..] == ws;
    }
  }

  lemma TextBack(t: Option<Text>, rest: seq<Byte>)
    ensures ReadText(TextBytes(t) + rest) == Got(Sent(t), rest)
  {
    hide WordBytes, BytesWord, ReadWord;
    var n, b := |Sent(t)|, Sent(t) + rest;
    assert TextBytes(t) + rest == WordBytes(n) + b;
    WordBack(n, b);
    assert b[..n] == Sent(t) && b[n..] == rest;
  }

  lemma GlyphBack(g: Glyph, rest: seq<Byte>)
    ensures ReadGlyph(WordsBytes(GlyphWords(g)) + rest) == Got(g, rest)
  {
    hide WordsBytes, ReadWords;
    WordsBack(GlyphWords(g), rest);
  }

  lemma {:induction false} GlyphsBack(gs: seq<Glyph>, rest: seq<Byte>)
    ensures ReadGlyphs(GlyphsBytes(gs) + rest, |gs|) == Got(gs, rest)
  {
    hide GlyphWords, WordsBytes, ReadGlyph;
    if gs == [] {
      assert GlyphsBytes(gs) + rest == rest;
    } else {
      assert GlyphsBytes(gs) + rest == WordsBytes(GlyphWords(gs[0])) + (GlyphsBytes(gs[1..]) + rest);
      GlyphBack(gs[0], GlyphsBytes(gs[1..]) + rest);
      GlyphsBack(gs[1..], rest);
      assert [gs[0]] + gs[1..] == gs;
    }
  }

  /** A cache reads back as itself if and only if its counter is right. */
  lemma CacheBack(c: Cache, rest: seq<Byte>)
    ensures c.nglyphs == |c.glyphs| ==> ReadCacheEntry(CacheBytes(c) + rest) == Got(CacheView(c), rest)
    ensures c.nglyphs != |c.glyphs| ==>
              var r := ReadCacheEntry(CacheBytes(c) + rest); r.Got? ==> r.value != CacheView(c)
  {
    hide TextBytes, WordsBytes, GlyphsBytes, ReadText, ReadWords, ReadGlyphs;
    var ws := [c.size, c.usage, c.nglyphs];
    var tail := WordsBytes(ws) + (GlyphsBytes(c.glyphs) + rest);
    assert CacheBytes(c) + rest == TextBytes(Some(c.shmName)) + tail;
    TextBack(Some(c.shmName), tail);
    WordsBack(ws, GlyphsBytes(c.glyphs) + rest);
    GlyphsBack(c.glyphs, rest);
  }

  lemma {:induction false} CachesBack(cs: seq<Cache>, rest: seq<Byte>)
    ensures CountedCaches(cs) ==> ReadCaches(CachesBytes(cs) + rest, |cs|) == Got(CacheViews(cs), rest)
    ensures !CountedCaches(cs) ==>
              var r := ReadCaches(CachesBytes(cs) + rest, |cs|); r.Got? ==> r.value != CacheViews(cs)
  {
    hide CacheBytes, ReadCacheEntry, CacheView;
    if cs == [] {
      assert CachesBytes(cs) + rest == rest;
    } else {
      var tail := CachesBytes(cs[1..]) + rest;
      assert CachesBytes(cs) + rest == CacheBytes(cs[0]) + tail;
      CacheBack(cs[0], tail);
      CachesBack(cs[1..], rest);
      assert CacheViews(cs)[0] == CacheView(cs[0]) && CacheViews(cs)[1..] == CacheViews(cs[1..]);
      var r := ReadCaches(CachesBytes(cs) + rest, |cs|);
      if r.Got? {
        assert r.value[1..] == ReadCaches(ReadCacheEntry(CacheBytes(cs[0]) + tail).rest, |cs| - 1).value;
      }
    }
  }

  lemma FontBack(f: Font, rest: seq<Byte>)
    requires |f.caches| < WORD_LIMIT
    ensures CountedCaches(f.caches) ==> ReadFontEntry(FontBytes(f) + rest) == Got(FontView(f), rest)
    ensures !CountedCaches(f.caches) ==>
              var r := ReadFontEntry(FontBytes(f) + rest); r.Got? ==> r.value != FontView(f)
  {
    hide TextBytes, WordsBytes, CachesBytes, ReadText, ReadWords, ReadCaches, CacheViews, CountedCaches, Sent;
    var t2 := CachesBytes(f.caches) + rest;
    var t1 := WordsBytes(FontWords(f)) + t2;
    var t0 := TextBytes(f.name) + t1;
    assert FontBytes(f) + rest == TextBytes(f.file) + t0;
    TextBack(f.file, t0);
    TextBack(f.name, t1);
    WordsBack(FontWords(f), t2);
    CachesBack(f.caches, rest);
  }

  lemma {:induction false} FontsBack(fs: seq<Font>, rest: seq<Byte>)
    requires Fits(fs)
    ensures Counted(fs) ==> ReadFonts(FontsBytes(fs) + rest, |fs|) == Got(FontViews(fs), rest)
    ensures !Counted(fs) ==>
              var r := ReadFonts(FontsBytes(fs) + rest, |fs|); r.Got? ==> r.value != FontViews(fs)
  {
    hide FontBytes, ReadFontEntry, FontView, CountedCaches;
    if fs == [] {
      assert FontsBytes(fs) + rest == rest;
    } else {
      var tail := FontsBytes(fs[1..]) + rest;
      assert FontsBytes(fs) + rest == FontBytes(fs[0]) + tail;
      FontBack(fs[0], tail);
      FontsBack(fs[1..], rest);
      assert FontViews(fs)[0] == FontView(fs[0]) && FontViews(fs)[1..] == FontViews(fs[1..]);
      var r := ReadFonts(FontsBytes(fs) + rest, |fs|);
      if r.Got? {
        assert r.value[1..] == ReadFonts(ReadFontEntry(FontBytes(fs[0]) + tail).rest, |fs| - 1).value;
      }
    }
  }

  /**
   The client reads back exactly the fonts the server wrote, to the last byte, if and only
   if every counter nglyphs is the length of its list.
   */
  lemma DebugRoundTrip(rid: Word, fs: seq<Font>)
    requires Fits(fs) && |fs| < WORD_LIMIT
    ensures ReadMessage(Message(rid, fs)) == Got(Some(FontViews(fs)), []) <==> Counted(fs)
  {
    hide WordsBytes, ReadWords, FontsBytes, ReadFonts, FontViews, Counted, WordBytes, ReadWord, Fits;
    var t1 := FontsBytes(fs);
    var t0 := WordBytes(|fs|) + t1;
    WordsBack([CSERVE2_FONT_DEBUG, rid], t0);
    WordBack(|fs|, t1);
    FontsBack(fs, []);
    assert t1 + [] == t1;
  }
}
