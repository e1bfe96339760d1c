/** Page rotation: the remap of a placed field in the editor (sign/esign.py), and the
    matrix through which the stamper draws it (sign/pdf_stamp.py). Coordinates are reals. */
module Rotation {

  /** A field's box as fractions of the page a signer sees: top-left origin, y downward. */
  datatype Rect = Rect(x: real, y: real, w: real, h: real)

  /** A box in points of the visual frame: top-left origin, y downward. */
  datatype Box = Box(x0: real, y0: real, x1: real, y1: real)

  /** The six numbers of a PDF transformation matrix. */
  datatype Matrix = Matrix(a: real, b: real, c: real, d: real, e: real, f: real)

  /** Unrotated MediaBox dimensions. */
  datatype Media = Media(w0: real, h0: real)

  predicate QuarterTurn(rot: int) {
    rot == 0 || rot == 90 || rot == 180 || rot == 270
  }

  function VisualWidth(rot: int, m: Media): real {
    if rot == 90 || rot == 270 then m.h0 else m.w0
  }

  function VisualHeight(rot: int, m: Media): real {
    if rot == 90 || rot == 270 then m.w0 else m.h0
  }

  function Ctm(rot: int, m: Media): Matrix {
    if rot == 90 then Matrix(0.0, 1.0, -1.0, 0.0, m.w0, 0.0)
    else if rot == 180 then Matrix(-1.0, 0.0, 0.0, -1.0, m.w0, m.h0)
    else if rot == 270 then Matrix(0.0, -1.0, 1.0, 0.0, 0.0, m.h0)
    else Matrix(1.0, 0.0, 0.0, 1.0, 0.0, 0.0)
  }

  function RectPx(r: Rect, vw: real, vh: real): Box {
    Box(r.x * vw, r.y * vh, (r.x + r.w) * vw, (r.y + r.h) * vh)
  }

  /** `_Pen._fy`: from the top-left visual frame to the canvas, whose y grows upward. */
  function PenY(vh: real, y: real): real {
    vh - y
  }

  /** ISO 32000-1 section 8.3.4: the point (x, y) carried through a matrix. */
  function Through(m: Matrix, x: real, y: real): (real, real) {
    (m.a * x + m.c * y + m.e, m.b * x + m.d * y + m.f)
  }

  ghost predicate Inside(b: Box, u: real, v: real) {
    b.x0 <= u <= b.x1 && b.y0 <= v <= b.y1
  }

  /** Where the stamper puts the visual point (u, v) on the unrotated page. */
  function Drawn(rot: int, m: Media, u: real, v: real): (real, real) {
    Through(Ctm(rot, m), u, PenY(VisualHeight(rot, m), v))
  }

  /** The stamped field covers `p` when some visual point of its box is drawn there. */
  ghost predicate Covers(r: Rect, rot: int, m: Media, p: (real, real)) {
    var b := RectPx(r, VisualWidth(rot, m), VisualHeight(rot, m));
    exists u, v :: Inside(b, u, v) && Drawn(rot, m, u, v) == p
  }

  /** `rotate_page`'s remap of one field for a clockwise turn. */
  function Remap(r: Rect, deg: int): Rect {
    if deg == 90 then Rect(1.0 - r.y - r.h, r.x, r.h, r.w)
    else if deg == 180 then Rect(1.0 - r.x - r.w, 1.0 - r.y - r.h, r.w, r.h)
    else if deg == 270 then Rect(r.y, 1.0 - r.x - r.w, r.h, r.w)
    else r
  }

  /** The visual point drawn at `p`: every quarter-turn matrix is invertible. */
  function Seen(rot: int, m: Media, p: (real, real)): (real, real) {
    if rot == 90 then (p.1, p.0)
    else if rot == 180 then (m.w0 - p.0, p.1)
    else if rot == 270 then (m.h0 - p.1, m.w0 - p.0)
    else (p.0, m.h0 - p.1)
  }

  lemma SeenInvertsDrawn(rot: int, m: Media, u: real, v: real, p: (real, real))
    requires QuarterTurn(rot)
    ensures Drawn(rot, m, u, v) == p <==> (u, v) == Seen(rot, m, p)
  {
  }

  lemma CoversIffSeenInside(r: Rect, rot: int, m: Media, p: (real, real))
    requires QuarterTurn(rot)
    ensures Covers(r, rot, m, p) <==>
            Inside(RectPx(r, VisualWidth(rot, m), VisualHeight(rot, m)), Seen(rot, m, p).0, Seen(rot, m, p).1)
  {
    var b := RectPx(r, VisualWidth(rot, m), VisualHeight(rot, m));
    var s := Seen(rot, m, p);
    SeenInvertsDrawn(rot, m, s.0, s.1, p);
    if Covers(r, rot, m, p) {
      var u, v :| Inside(b, u, v) && Drawn(rot, m, u, v) == p;
      SeenInvertsDrawn(rot, m, u, v, p);
    }
  }

  /** The box a clockwise turn makes of `b` in a visual frame of `vw` by `vh` points. */
  function TurnedBox(b: Box, deg: int, vw: real, vh: real): Box {
    if deg == 90 then Box(vh - b.y1, b.x0, vh - b.y0, b.x1)
    else if deg == 180 then Box(vw - b.x1, vh - b.y1, vw - b.x0, vh - b.y0)
    else if deg == 270 then Box(b.y0, vw - b.x1, b.y1, vw - b.x0)
    else b
  }

  /** Remapping the fractions and scaling is scaling and then turning the box. */
  lemma RemapTurnsBox(r: Rect, deg: int, vw: real, vh: real)
    requires deg == 90 || deg == 180 || deg == 270
    ensures RectPx(Remap(r, deg), if deg == 180 then vw else vh, if deg == 180 then vh else vw)
         == TurnedBox(RectPx(r, vw, vh), deg, vw, vh)
  {
    FarEdge(r.x, r.w, vw);
    FarEdge(r.y, r.h, vh);
  }

  /** Scaling from the far edge. */
  lemma FarEdge(x: real, w: real, v: real)
    ensures (1.0 - x - w) * v == v - (x + w) * v
    ensures ((1.0 - x - w) + w) * v == v - x * v
  {
  }

  lemma TurnKeepsInside(b: Box, rot: int, deg: int, m: Media, p: (real, real))
    requires QuarterTurn(rot)
    requires deg == 90 || deg == 180 || deg == 270
    ensures Inside(b, Seen(rot, m, p).0, Seen(rot, m, p).1)
      <==> Inside(TurnedBox(b, deg, VisualWidth(rot, m), VisualHeight(rot, m)),
                  Seen((rot + deg) % 360, m, p).0, Seen((rot + deg) % 360, m, p).1)
  {
  }

  /** Turning a page and remapping its fields leaves every stamped mark on the same spot of
      the unrotated page, for every starting rotation and every allowed turn. */
  lemma TurnKeepsStampedRegion(r: Rect, rot: int, deg: int, m: Media, p: (real, real))
    requires QuarterTurn(rot)
    requires deg == 90 || deg == 180 || deg == 270
    ensures Covers(r, rot, m, p) <==> Covers(Remap(r, deg), (rot + deg) % 360, m, p)
  {
    var vw, vh := VisualWidth(rot, m), VisualHeight(rot, m);
    CoversIffSeenInside(r, rot, m, p);
    CoversIffSeenInside(Remap(r, deg), (rot + deg) % 360, m, p);
    RemapTurnsBox(r, deg, vw, vh);
    TurnKeepsInside(RectPx(r, vw, vh), rot, deg, m, p);
  }

  /** Turns compose by adding their angles; a full circle is no turn at all. */
  lemma TurnsCompose(r: Rect, first: int, second: int)
    requires QuarterTurn(first) && QuarterTurn(second)
    ensures Remap(Remap(r, first), second) == Remap(r, (first + second) % 360)
  {
  }

  predicate Turns(degs: seq<int>) {
    forall i :: 0 <= i < |degs| ==> degs[i] == 90 || degs[i] == 180 || degs[i] == 270
  }

  function RemapAll(r: Rect, degs: seq<int>): Rect
    decreases |degs|
  {
    if degs == [] then r else RemapAll(Remap(r, degs[0]), degs[1..])
  }

  function TotalTurn(degs: seq<int>): (total: int)
    requires Turns(degs)
    ensures QuarterTurn(total)
  {
    if degs == [] then 0 else (degs[0] + TotalTurn(degs[1..])) % 360
  }

  /** Any sequence of turns is the one turn by its total angle, so a sequence that adds up to
      whole circles, such as four quarter turns, leaves every field as it was. */
  lemma {:induction false} TurnSequenceIsOneTurn(r: Rect, degs: seq<int>)
    requires Turns(degs)
    ensures RemapAll(r, degs) == Remap(r, TotalTurn(degs))
    decreases |degs|
  {
    if degs != [] {
      TurnSequenceIsOneTurn(Remap(r, degs[0]), degs[1..]);
      TurnsCompose(r, degs[0], TotalTurn(degs[1..]));
    }
  }

  lemma Wrap(x: int)
    requires 0 <= x < 720
    ensures x % 360 == if x < 360 then x else x - 360
  {
  }

  lemma AnglesAdd(rot: int, first: int, rest: int)
    requires QuarterTurn(rot) && QuarterTurn(first) && QuarterTurn(rest)
    ensures QuarterTurn((rot + first) % 360)
    ensures ((rot + first) % 360 + rest) % 360 == (rot + (first + rest) % 360) % 360
  {
    Wrap(rot + first);
    Wrap(first + rest);
    Wrap((rot + first) % 360 + rest);
    Wrap(rot + (first + rest) % 360);
  }

  /** Over any sequence of turns a field still stamps the very region it was placed on. */
  lemma {:induction false} TurnSequenceKeepsStampedRegion(r: Rect, rot: int, degs: seq<int>, m: Media, p: (real, real))
    requires QuarterTurn(rot) && Turns(degs)
    ensures Covers(r, rot, m, p) <==> Covers(RemapAll(r, degs), (rot + TotalTurn(degs)) % 360, m, p)
    decreases |degs|
  {
    if degs != [] {
      var turned, rot', rest := Remap(r, degs[0]), (rot + degs[0]) % 360, TotalTurn(degs[1..]);
      AnglesAdd(rot, degs[0], rest);
      calc {
        Covers(r, rot, m, p);
        { TurnKeepsStampedRegion(r, rot, degs[0], m, p); }
        Covers(turned, rot', m, p);
        { TurnSequenceKeepsStampedRegion(turned, rot', degs[1..], m, p); }
        Covers(RemapAll(turned, degs[1..]), (rot' + rest) % 360, m, p);
        Covers(RemapAll(r, degs), (rot + TotalTurn(degs)) % 360, m, p);
      }
    } else {
      assert rot % 360 == rot;
    }
  }
}
