/**
 What the cached clip of an object is: its own area, visibility and colour cut down by the
 cached clip of its clipper.
 */
module ClipGeometry {
  import opened Lists

  datatype Rect = Rect(x: int, y: int, w: int, h: int)

  datatype Color = Color(r: nat, g: nat, b: nat, a: nat)

  /** The fields of an object that its cached clip is computed from. */
  datatype Own = Own(
    geometry: Rect, mapped: Option<Rect>, color: Color, visible: bool, blend: bool, mapParent: int)

  datatype Cache = Cache(box: Rect, visible: bool, color: Color)

  predicate SpansCommon(x1: int, w1: int, x2: int, w2: int) {
    !(x2 + w2 <= x1 || x2 >= x1 + w1)
  }

  /** One axis of RECTS_CLIP_TO_RECT */
  function ClipSpan(x: int, w: int, cx: int, cw: int): (int, int) {
    var w1 := if x < cx then if w + (x - cx) < 0 then 0 else w + (x - cx) else w;
    var x1 := if x < cx then cx else x;
    (x1, if x1 + w1 > cx + cw then cx + cw - x1 else w1)
  }

  /** RECTS_CLIP_TO_RECT */
  function ClipTo(a: Rect, c: Rect): Rect {
    if SpansCommon(a.x, a.w, c.x, c.w) && SpansCommon(a.y, a.h, c.y, c.h) then
      var (x, w) := ClipSpan(a.x, a.w, c.x, c.w);
      var (y, h) := ClipSpan(a.y, a.h, c.y, c.h);
      Rect(x, y, w, h)
    else a.(w := 0, h := 0)
  }

  predicate Covers(a: Rect, px: int, py: int) {
    a.x <= px < a.x + a.w && a.y <= py < a.y + a.h
  }

  /** A point is in the clipped rectangle if and only if it is in both. */
  lemma ClipToIsIntersection(a: Rect, c: Rect, px: int, py: int)
    ensures Covers(ClipTo(a, c), px, py) <==> Covers(a, px, py) && Covers(c, px, py)
  {}

  function Scaled(c: nat, n: nat): nat {
    c * (n + 1) / 256
  }

  /** What evas_object_clip_recalc computes, given the map parent and the cache of the clipper. */
  function Compose(own: Own, above: Option<(int, Cache)>): Cache {
    var box := if own.mapped.Some? then own.mapped.value else own.geometry;
    var vis := !(own.color.a == 0 && own.blend) && own.visible;
    match above
    case None => Cut(own, box, vis, own.color)
    case Some((parent, c)) =>
      Cut(own, if parent == own.mapParent then ClipTo(box, c.box) else box, vis && c.visible,
          Color(Scaled(own.color.r, c.color.r), Scaled(own.color.g, c.color.g),
                Scaled(own.color.b, c.color.b), Scaled(own.color.a, c.color.a)))
  }

  function Cut(own: Own, box: Rect, vis: bool, color: Color): Cache {
    Cache(box, vis && !(color.a == 0 && own.blend) && 0 < box.w && 0 < box.h, color)
  }
}
