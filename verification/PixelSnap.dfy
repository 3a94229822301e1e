/**
 Screen-space alignment of laid-out nodes, over exact reals.

 `SnapNodes` is the source's pass: it starts at every marked node without a marked ancestor, in any order,
 and works off a stack. It is proved against a recursive definition on the trees. A transform counts as
 axis-aligned if its off-diagonal entries are zero.
 */
module PixelSnap {
  import opened Wrappers

  datatype Point = Point(x: real, y: real)

  /** Columns (xx, xy) and (yx, yy), then the translation. */
  datatype Affine = Affine(xx: real, xy: real, yx: real, yy: real, tx: real, ty: real) {
    function Vector(v: Point): Point {
      Point(xx * v.x + yx * v.y, xy * v.x + yy * v.y)
    }

    function Apply(p: Point): Point {
      Point(xx * p.x + yx * p.y + tx, xy * p.x + yy * p.y + ty)
    }

    function After(b: Affine): Affine {
      var x, y, t := Vector(Point(b.xx, b.xy)), Vector(Point(b.yx, b.yy)), Apply(Point(b.tx, b.ty));
      Affine(x.x, x.y, y.x, y.y, t.x, t.y)
    }

    function Determinant(): real {
      xx * yy - xy * yx
    }

    function Inverse(): Affine
      requires Determinant() != 0.0
    {
      var d := Determinant();
      var a, b, c, e := yy / d, -xy / d, -yx / d, xx / d;
      Affine(a, b, c, e, -(a * tx + c * ty), -(b * tx + e * ty))
    }
  }

  const IDENTITY := Affine(1.0, 0.0, 0.0, 1.0, 0.0, 0.0)

  /** 2^-23, the threshold on determinants. */
  const EPSILON: real := 1.0 / 8388608.0

  /** To the nearest integer, halves away from zero. */
  function Round(r: real): real {
    if r >= 0.0 then (r + 0.5).Floor as real else -((0.5 - r).Floor as real)
  }

  function RoundPoint(p: Point): Point {
    Point(Round(p.x), Round(p.y))
  }

  predicate Whole(r: real) {
    r == r.Floor as real
  }

  lemma WholeIsWhole(k: int)
    ensures (k as real).Floor == k && Whole(k as real) && Whole(-(k as real))
  {
    assert -(k as real) == (-k) as real;
  }

  lemma RoundIsNearest(r: real)
    ensures Whole(Round(r)) && -0.5 <= Round(r) - r <= 0.5
    ensures Whole(r) ==> Round(r) == r
  {
    var k := if r >= 0.0 then (r + 0.5).Floor else (0.5 - r).Floor;
    WholeIsWhole(k);
    if Whole(r) {
      var n := r.Floor;
      assert (if r >= 0.0 then k == n else k == -n) by {
        assert r == n as real;
        assert r < 0.0 ==> 0.5 - r == (-n) as real + 0.5;
      }
    }
  }

  /** Halves go away from zero, on both sides. */
  lemma RoundHalves(k: nat, r: real)
    ensures Round(k as real + 0.5) == (k + 1) as real && Round(-(k as real) - 0.5) == -((k + 1) as real)
    ensures Round(-r) == -Round(r)
  {
  }

  predicate AxisAligned(t: Affine) {
    t.xy == 0.0 && t.yx == 0.0 && t.xx > 0.0 && t.yy > 0.0
  }

  predicate Positive(size: Point) {
    size.x > 0.0 && size.y > 0.0
  }

  function Origin(t: Affine, size: Point): Point {
    t.Apply(Point(-0.5 * size.x, -0.5 * size.y))
  }

  function Corner(t: Affine, size: Point): Point {
    t.Apply(Point(0.5 * size.x, 0.5 * size.y))
  }

  /** The scale of one axis that stretches `scale * size` to `wanted`. */
  function Rescaled(scale: real, size: real, wanted: real): real
    requires scale > 0.0 && size > 0.0
  {
    Stretch(scale, size);
    scale * (wanted / (scale * size))
  }

  function Wanted(t: Affine, size: Point, target: Option<Point>): Point {
    if target.Some? && Positive(target.value) then target.value else t.Vector(size)
  }

  function SnappedTransform(t: Affine, size: Point, target: Option<Point>): Affine {
    if !Positive(size) || !AxisAligned(t) then t
    else
      var origin, wanted := RoundPoint(Origin(t, size)), Wanted(t, size, target);
      Affine(Rescaled(t.xx, size.x, wanted.x), 0.0, 0.0, Rescaled(t.yy, size.y, wanted.y),
             origin.x + 0.5 * wanted.x, origin.y + 0.5 * wanted.y)
  }

  lemma Stretch(scale: real, size: real)
    requires scale > 0.0 && size > 0.0
    ensures scale * size > 0.0
  {
  }

  /** The bounds a transformed rectangle gets, if it is aligned and stays at least a pixel wide and high. */
  function AlignedBounds(t: Affine, low: Point, high: Point): Option<(Point, Point)> {
    if !AxisAligned(t) then None
    else
      var low', high' := RoundPoint(t.Apply(low)), RoundPoint(t.Apply(high));
      if high'.x - low'.x > 0.0 && high'.y - low'.y > 0.0 then Some((low', high')) else None
  }

  /**
   The bounds of a rectangle on the screen, if its map is aligned and both of its extents are positive after
   rounding: the whole pixels nearest to its corners.
   */
  lemma BoundsAreRounded(t: Affine, low: Point, high: Point)
    ensures var bounds, a, b := AlignedBounds(t, low, high), t.Apply(low), t.Apply(high);
            && (bounds.Some? <==> AxisAligned(t) && Round(a.x) < Round(b.x) && Round(a.y) < Round(b.y))
            && (bounds.Some? ==>
                  bounds.value == (Point(Round(a.x), Round(a.y)), Point(Round(b.x), Round(b.y))))
  {
    hide Round, Affine.Apply;
  }

  // ---------------------------------------------------------------------
  // One node
  // ---------------------------------------------------------------------

  lemma RescaledFits(scale: real, size: real, wanted: real)
    requires scale > 0.0 && size > 0.0 && wanted > 0.0
    ensures Rescaled(scale, size, wanted) > 0.0 && Rescaled(scale, size, wanted) * size == wanted
  {
    Stretch(scale, size);
    var extent := scale * size;
    var ratio := wanted / extent;
    assert ratio * extent == wanted && ratio > 0.0;
    assert scale * ratio * size == ratio * (scale * size);
  }

  lemma RescaledToItself(scale: real, size: real)
    requires scale > 0.0 && size > 0.0
    ensures Rescaled(scale, size, scale * size) == scale
  {
    Stretch(scale, size);
  }

  lemma AlignedApply(t: Affine, size: Point)
    requires t.xy == 0.0 && t.yx == 0.0
    ensures t.Vector(size) == Point(t.xx * size.x, t.yy * size.y)
    ensures Origin(t, size) == Point(t.tx - 0.5 * (t.xx * size.x), t.ty - 0.5 * (t.yy * size.y))
    ensures Corner(t, size) == Point(t.tx + 0.5 * (t.xx * size.x), t.ty + 0.5 * (t.yy * size.y))
  {
    assert t.xx * (-0.5 * size.x) == -0.5 * (t.xx * size.x) && t.yy * (-0.5 * size.y) == -0.5 * (t.yy * size.y);
    assert t.xx * (0.5 * size.x) == 0.5 * (t.xx * size.x) && t.yy * (0.5 * size.y) == 0.5 * (t.yy * size.y);
  }

  lemma WantedIsPositive(t: Affine, size: Point, target: Option<Point>)
    requires Positive(size) && AxisAligned(t)
    ensures Positive(Wanted(t, size, target))
  {
    AlignedApply(t, size);
    Stretch(t.xx, size.x);
    Stretch(t.yy, size.y);
  }

  /** What a snap yields, one axis at a time. */
  lemma SnapAxes(t: Affine, size: Point, target: Option<Point>)
    requires Positive(size) && AxisAligned(t)
    ensures var u, origin, wanted :=
              SnappedTransform(t, size, target), RoundPoint(Origin(t, size)), Wanted(t, size, target);
            && AxisAligned(u) && u.xx * size.x == wanted.x && u.yy * size.y == wanted.y
            && Origin(u, size) == origin && Corner(u, size) == Point(origin.x + wanted.x, origin.y + wanted.y)
  {
    var u, wanted := SnappedTransform(t, size, target), Wanted(t, size, target);
    WantedIsPositive(t, size, target);
    RescaledFits(t.xx, size.x, wanted.x);
    RescaledFits(t.yy, size.y, wanted.y);
    hide Rescaled, Round, Wanted, Affine.Apply, Affine.Vector;
    AlignedApply(u, size);
  }

  /**
   Snapping puts the top-left corner on whole pixels, at most half a pixel away, and the extent is the
   target's, or as it was without one.
   */
  lemma SnapLandsOnPixels(t: Affine, size: Point, target: Option<Point>)
    requires Positive(size) && AxisAligned(t)
    ensures var u := SnappedTransform(t, size, target);
            && AxisAligned(u)
            && Origin(u, size) == RoundPoint(Origin(t, size))
            && u.Vector(size) == Wanted(t, size, target)
            && Whole(Origin(u, size).x) && Whole(Origin(u, size).y)
            && (if target.Some? && target.value.x > 0.0 && target.value.y > 0.0
                then u.Vector(size) == target.value
                else u.Vector(size) == t.Vector(size) && u.xx == t.xx && u.yy == t.yy)
  {
    ExtentIsWanted(t, size, target);
    SnapAxes(t, size, target);
    RoundIsNearest(Origin(t, size).x);
    RoundIsNearest(Origin(t, size).y);
    hide Round, SnappedTransform, Wanted, Affine.Vector;
  }

  /** The extent is the target's if there is one of positive size, or else it is not changed. */
  lemma ExtentIsWanted(t: Affine, size: Point, target: Option<Point>)
    requires Positive(size) && AxisAligned(t)
    ensures var u := SnappedTransform(t, size, target);
            && AxisAligned(u) && u.Vector(size) == Wanted(t, size, target)
            && (if target.Some? && target.value.x > 0.0 && target.value.y > 0.0
                then u.Vector(size) == target.value
                else u.Vector(size) == t.Vector(size) && u.xx == t.xx && u.yy == t.yy)
  {
    SnapAxes(t, size, target);
    AlignedApply(t, size);
    AlignedApply(SnappedTransform(t, size, target), size);
    RescaledToItself(t.xx, size.x);
    RescaledToItself(t.yy, size.y);
    hide Round, Rescaled, Origin, Corner, Affine.Vector, Affine.Apply;
  }

  lemma SameExtentSameScale(a: real, b: real, size: real)
    requires size > 0.0 && a * size == b * size
    ensures a == b
  {
    assert (a - b) * size == 0.0;
  }

  /** Snapping again changes nothing, with or without a target. */
  lemma SnapIsIdempotent(t: Affine, size: Point, target: Option<Point>)
    ensures var u := SnappedTransform(t, size, target); SnappedTransform(u, size, target) == u
  {
    var u := SnappedTransform(t, size, target);
    if Positive(size) && AxisAligned(t) {
      SnapLandsOnPixels(t, size, target);
      SnapLandsOnPixels(u, size, target);
      var v := SnappedTransform(u, size, target);
      RoundIsNearest(Origin(u, size).x);
      RoundIsNearest(Origin(u, size).y);
      SameExtentSameScale(u.xx, v.xx, size.x);
      SameExtentSameScale(u.yy, v.yy, size.y);
    }
  }

  function Centred(size: Point): (Point, Point) {
    (Point(-0.5 * size.x, -0.5 * size.y), Point(0.5 * size.x, 0.5 * size.y))
  }

  /** Aligned paint covers exactly the aligned bounds: both corners, whole pixels, and again the same bounds. */
  lemma PaintFillsAlignedBounds(t: Affine, size: Point)
    requires Positive(size) && AlignedBounds(t, Centred(size).0, Centred(size).1).Some?
    ensures var bounds := AlignedBounds(t, Centred(size).0, Centred(size).1).value;
            var u := SnappedTransform(t, size, Some(Point(bounds.1.x - bounds.0.x, bounds.1.y - bounds.0.y)));
            && u.Apply(Centred(size).0) == bounds.0 && u.Apply(Centred(size).1) == bounds.1
            && AlignedBounds(u, Centred(size).0, Centred(size).1) == Some(bounds)
  {
    var bounds := AlignedBounds(t, Centred(size).0, Centred(size).1).value;
    SnapAxes(t, size, Some(Point(bounds.1.x - bounds.0.x, bounds.1.y - bounds.0.y)));
    RoundTwice(t.Apply(Centred(size).0));
    RoundTwice(t.Apply(Centred(size).1));
    hide Round;
  }

  lemma RoundTwice(p: Point)
    ensures RoundPoint(RoundPoint(p)) == RoundPoint(p)
  {
    RoundIsNearest(p.x);
    RoundIsNearest(p.y);
    RoundIsNearest(Round(p.x));
    RoundIsNearest(Round(p.y));
  }

  /** One entry of a product of three: a row (a, b), a matrix (p r; q s) and a column (x, y). */
  lemma Entry(a: real, b: real, p: real, q: real, r: real, s: real, x: real, y: real, m: real, n: real, u: real, v: real)
    requires m == a * p + b * q && n == a * r + b * s && u == p * x + r * y && v == q * x + s * y
    ensures m * x + n * y == a * u + b * v
  {
    assert m * x == a * (p * x) + b * (q * x);
    assert n * y == a * (r * y) + b * (s * y);
    assert a * u == a * (p * x) + a * (r * y);
    assert b * v == b * (q * x) + b * (s * y);
  }

  lemma VectorAfter(a: Affine, b: Affine, v: Point)
    ensures a.After(b).Vector(v) == a.Vector(b.Vector(v))
  {
    VectorAfterX(a, b, v);
    VectorAfterY(a, b, v);
    hide Affine.After, Affine.Vector;
  }

  lemma VectorAfterX(a: Affine, b: Affine, v: Point)
    ensures a.After(b).Vector(v).x == a.Vector(b.Vector(v)).x
  {
    var ab, w := a.After(b), b.Vector(v);
    Entry(a.xx, a.yx, b.xx, b.xy, b.yx, b.yy, v.x, v.y, ab.xx, ab.yx, w.x, w.y);
  }

  lemma VectorAfterY(a: Affine, b: Affine, v: Point)
    ensures a.After(b).Vector(v).y == a.Vector(b.Vector(v)).y
  {
    var ab, w := a.After(b), b.Vector(v);
    Entry(a.xy, a.yy, b.xx, b.xy, b.yx, b.yy, v.x, v.y, ab.xy, ab.yy, w.x, w.y);
  }

  /** A map applied to a sum of a vector and a point. */
  lemma ApplySum(a: Affine, v: Point, p: Point)
    ensures a.Apply(Point(v.x + p.x, v.y + p.y)) == Point(a.Vector(v).x + a.Apply(p).x, a.Vector(v).y + a.Apply(p).y)
  {
    Distribute(a.xx, a.yx, v.x, v.y, p.x, p.y);
    Distribute(a.xy, a.yy, v.x, v.y, p.x, p.y);
  }

  lemma Distribute(a: real, b: real, u: real, v: real, x: real, y: real)
    ensures a * (u + x) + b * (v + y) == (a * u + b * v) + (a * x + b * y)
  {
  }

  lemma ApplyAfter(a: Affine, b: Affine, p: Point)
    ensures a.After(b).Apply(p) == a.Apply(b.Apply(p))
  {
    var ab, v := a.After(b), b.Vector(p);
    VectorAfter(a, b, p);
    ApplySum(a, v, Point(b.tx, b.ty));
    ApplyIsShift(ab, p);
    ApplyIsShift(b, p);
    hide Affine.Vector, Affine.Apply;
  }

  lemma ApplyIsShift(a: Affine, p: Point)
    ensures a.Apply(p) == Point(a.Vector(p).x + a.tx, a.Vector(p).y + a.ty)
  {
  }

  lemma Associative(a: Affine, b: Affine, c: Affine)
    ensures a.After(b).After(c) == a.After(b.After(c))
  {
    hide Affine.Vector, Affine.Apply;
    VectorAfter(a, b, Point(c.xx, c.xy));
    VectorAfter(a, b, Point(c.yx, c.yy));
    ApplyAfter(a, b, Point(c.tx, c.ty));
  }

  /** Dividing by the determinant undoes multiplying with it. */
  lemma Quotients(p: real, q: real, d: real, x: real, y: real)
    requires d != 0.0
    ensures (p / d) * x + (q / d) * y == (p * x + q * y) / d
  {
    var u, v := p / d, q / d;
    assert (u * x + v * y) * d == (u * d) * x + (v * d) * y;
  }

  lemma InverseUndoes(a: Affine)
    requires a.Determinant() != 0.0
    ensures a.Inverse().After(a) == IDENTITY
  {
    var d, i := a.Determinant(), a.Inverse();
    Quotients(a.yy, -a.yx, d, a.xx, a.xy);
    Quotients(-a.xy, a.xx, d, a.xx, a.xy);
    Quotients(a.yy, -a.yx, d, a.yx, a.yy);
    Quotients(-a.xy, a.xx, d, a.yx, a.yy);
    assert i.xx * a.xx + i.yx * a.xy == 1.0;
    assert i.xy * a.xx + i.yy * a.xy == 0.0;
    assert i.xx * a.yx + i.yx * a.yy == 0.0;
    assert i.xy * a.yx + i.yy * a.yy == 1.0;
  }

  /** The linear part of a map after its inverse. */
  lemma UndoesLinear(a: Affine)
    requires a.Determinant() != 0.0
    ensures var i := a.Inverse();
            && a.xx * i.xx + a.yx * i.xy == 1.0 && a.xx * i.yx + a.yx * i.yy == 0.0
            && a.xy * i.xx + a.yy * i.xy == 0.0 && a.xy * i.yx + a.yy * i.yy == 1.0
  {
    var d := a.Determinant();
    Quotients(a.yy, -a.xy, d, a.xx, a.yx);
    Quotients(a.yy, -a.xy, d, a.xy, a.yy);
    Quotients(-a.yx, a.xx, d, a.xx, a.yx);
    Quotients(-a.yx, a.xx, d, a.xy, a.yy);
  }

  lemma InverseShift(a: Affine)
    requires a.Determinant() != 0.0
    ensures var i := a.Inverse();
            -i.tx == i.xx * a.tx + i.yx * a.ty && -i.ty == i.xy * a.tx + i.yy * a.ty
  {
  }

  lemma AfterIsIdentity(a: Affine, i: Affine)
    requires a.xx * i.xx + a.yx * i.xy == 1.0 && a.xx * i.yx + a.yx * i.yy == 0.0
    requires a.xy * i.xx + a.yy * i.xy == 0.0 && a.xy * i.yx + a.yy * i.yy == 1.0
    requires -i.tx == i.xx * a.tx + i.yx * a.ty && -i.ty == i.xy * a.tx + i.yy * a.ty
    ensures a.After(i) == IDENTITY
  {
    Entry(a.xx, a.yx, i.xx, i.xy, i.yx, i.yy, a.tx, a.ty, 1.0, 0.0, -i.tx, -i.ty);
    Entry(a.xy, a.yy, i.xx, i.xy, i.yx, i.yy, a.tx, a.ty, 0.0, 1.0, -i.tx, -i.ty);
  }

  lemma UndoesInverse(a: Affine)
    requires a.Determinant() != 0.0
    ensures a.After(a.Inverse()) == IDENTITY
  {
    UndoesLinear(a);
    InverseShift(a);
    AfterIsIdentity(a, a.Inverse());
    hide Affine.Inverse, Affine.After;
  }

  // ---------------------------------------------------------------------
  // Inherited clips
  // ---------------------------------------------------------------------

  /** A clipping rectangle in coordinates of its own, and the map from the screen to those. */
  datatype Clip = Clip(toLocal: Affine, low: Point, high: Point)

  function AlignedClip(clip: Clip): Clip {
    if clip.toLocal.Determinant() == 0.0 then clip
    else
      var bounds := AlignedBounds(clip.toLocal.Inverse(), clip.low, clip.high);
      if bounds.None? then clip
      else clip.(low := clip.toLocal.Apply(bounds.value.0), high := clip.toLocal.Apply(bounds.value.1))
  }

  method AlignClips(clips: seq<Clip>) returns (next: seq<Clip>)
    ensures |next| == |clips| && forall i :: 0 <= i < |clips| ==> next[i] == AlignedClip(clips[i])
  {
    next := [];
    for i := 0 to |clips|
      invariant |next| == i && forall j :: 0 <= j < i ==> next[j] == AlignedClip(clips[j])
    {
      next := next + [AlignedClip(clips[i])];
    }
  }

  /** A node painted on aligned bounds of its own. */
  datatype Paint = Paint(transform: Affine, size: Point)

  /** The transform of an aligned paint; it stays where it is if its bounds cannot be aligned. */
  function AlignedPaint(paint: Paint): Affine {
    var bounds := AlignedBounds(paint.transform, Centred(paint.size).0, Centred(paint.size).1);
    if bounds.None? then paint.transform
    else
      var (low, high) := bounds.value;
      SnappedTransform(paint.transform, paint.size, Some(Point(high.x - low.x, high.y - low.y)))
  }

  /** Paint bounds first, then the clips they inherit. */
  method SnapPaint(paints: seq<Paint>, clips: seq<Clip>) returns (transforms: seq<Affine>, next: seq<Clip>)
    ensures |transforms| == |paints| && |next| == |clips|
    ensures forall i :: 0 <= i < |paints| ==> transforms[i] == AlignedPaint(paints[i])
    ensures forall i :: 0 <= i < |clips| ==> next[i] == AlignedClip(clips[i])
  {
    transforms := [];
    for i := 0 to |paints|
      invariant |transforms| == i && forall j :: 0 <= j < i ==> transforms[j] == AlignedPaint(paints[j])
    {
      var transform, size := paints[i].transform, paints[i].size;
      var bounds := AlignedBounds(transform, Centred(size).0, Centred(size).1);
      if bounds.Some? {
        var (low, high) := bounds.value;
        transform := SnappedTransform(transform, size, Some(Point(high.x - low.x, high.y - low.y)));
      }
      transforms := transforms + [transform];
    }
    next := AlignClips(clips);
  }

  lemma InverseApplies(a: Affine, p: Point)
    requires a.Determinant() != 0.0
    ensures a.Inverse().Apply(a.Apply(p)) == p
  {
    InverseUndoes(a);
    ApplyAfter(a.Inverse(), a, p);
  }

  /** An aligned clip has whole-pixel corners on the screen, and aligning it again changes nothing. */
  lemma ClipLandsOnPixels(clip: Clip)
    requires clip.toLocal.Determinant() != 0.0
    requires AlignedBounds(clip.toLocal.Inverse(), clip.low, clip.high).Some?
    ensures var next, screen := AlignedClip(clip), clip.toLocal.Inverse();
            && (screen.Apply(next.low), screen.Apply(next.high))
               == AlignedBounds(screen, clip.low, clip.high).value
            && AlignedClip(next) == next
  {
    var next, screen := AlignedClip(clip), clip.toLocal.Inverse();
    var bounds := AlignedBounds(screen, clip.low, clip.high).value;
    RoundTwice(screen.Apply(clip.low));
    RoundTwice(screen.Apply(clip.high));
    InverseApplies(clip.toLocal, bounds.0);
    InverseApplies(clip.toLocal, bounds.1);
    hide Affine.Inverse, Affine.Apply, Affine.Determinant, Round;
  }

  // ---------------------------------------------------------------------
  // The pass over the trees
  // ---------------------------------------------------------------------

  type Id = nat

  /** What layout computed for a node: its transform, its size, and the extent its presenter asks for. */
  datatype Layout = Layout(transform: Affine, size: Point, target: Option<Point>)

  /** An entity, marked or not; one without layout passes its ancestors' correction on. */
  datatype Tree = Tree(id: Id, marked: bool, layout: Option<Layout>, children: seq<Tree>)

  function Ids(tree: Tree): set<Id> {
    {tree.id} + AllIds(tree.children)
  }

  function AllIds(trees: seq<Tree>): set<Id> {
    if trees == [] then {} else AllIds(trees[..|trees| - 1]) + Ids(trees[|trees| - 1])
  }

  /** Every entity occurs once. */
  ghost predicate Distinct(tree: Tree) {
    tree.id !in AllIds(tree.children) && AllDistinct(tree.children)
  }

  ghost predicate AllDistinct(trees: seq<Tree>) {
    trees == [] ||
    (&& AllDistinct(trees[..|trees| - 1]) && Distinct(trees[|trees| - 1])
     && AllIds(trees[..|trees| - 1]) !! Ids(trees[|trees| - 1]))
  }

  function Adjusted(marked: bool, layout: Layout, correction: Affine): Affine {
    var inherited := correction.After(layout.transform);
    if marked then SnappedTransform(inherited, layout.size, layout.target) else inherited
  }

  /** The correction a node hands down: its own, if it moved and can be inverted. */
  function Correction(marked: bool, layout: Layout, correction: Affine): Affine {
    var adjusted := Adjusted(marked, layout, correction);
    var determinant := layout.transform.Determinant();
    if adjusted != correction.After(layout.transform) && (determinant > EPSILON || determinant < -EPSILON)
    then adjusted.After(layout.transform.Inverse())
    else correction
  }

  function HandedDown(tree: Tree, correction: Affine): Affine {
    if tree.layout.Some? then Correction(tree.marked, tree.layout.value, correction) else correction
  }

  /** The recursive definition: what becomes of every transform in a tree that inherits `correction`. */
  function Snapped(tree: Tree, correction: Affine): map<Id, Affine> {
    (if tree.layout.Some? then map[tree.id := Adjusted(tree.marked, tree.layout.value, correction)] else map[])
    + AllSnapped(tree.children, HandedDown(tree, correction))
  }

  function AllSnapped(trees: seq<Tree>, correction: Affine): map<Id, Affine> {
    if trees == [] then map[]
    else AllSnapped(trees[..|trees| - 1], correction) + Snapped(trees[|trees| - 1], correction)
  }

  /** The whole pass: a tree is snapped from its root if that is marked, else its children are. */
  function Pass(trees: seq<Tree>): map<Id, Affine> {
    if trees == [] then map[]
    else
      var tree := trees[|trees| - 1];
      Pass(trees[..|trees| - 1]) + if tree.marked then Snapped(tree, IDENTITY) else Pass(tree.children)
  }

  function Written(world: map<Id, Affine>, tree: Tree, correction: Affine): map<Id, Affine> {
    if tree.layout.Some? then world[tree.id := Adjusted(tree.marked, tree.layout.value, correction)] else world
  }

  datatype Pending = Pending(tree: Tree, correction: Affine)

  function TreesOf(pending: seq<Pending>): seq<Tree> {
    seq(|pending|, i requires 0 <= i < |pending| => pending[i].tree)
  }

  /** What the stack still owes. */
  function Owed(pending: seq<Pending>): map<Id, Affine> {
    if pending == [] then map[]
    else
      var top := pending[|pending| - 1];
      Owed(pending[..|pending| - 1]) + Snapped(top.tree, top.correction)
  }

  function Handed(trees: seq<Tree>, correction: Affine): seq<Pending> {
    seq(|trees|, i requires 0 <= i < |trees| => Pending(trees[i], correction))
  }

  /** The entities of `trees` still have the transforms layout gave them. */
  ghost predicate Untouched(world: map<Id, Affine>, trees: seq<Tree>) {
    trees == [] ||
    (Untouched(world, trees[..|trees| - 1]) && Fresh(world, trees[|trees| - 1]))
  }

  ghost predicate Fresh(world: map<Id, Affine>, tree: Tree) {
    && (tree.layout.Some? ==> tree.id in world && world[tree.id] == tree.layout.value.transform)
    && Untouched(world, tree.children)
  }

  function Size(tree: Tree): nat {
    1 + AllSize(tree.children)
  }

  function AllSize(trees: seq<Tree>): nat {
    if trees == [] then 0 else AllSize(trees[..|trees| - 1]) + Size(trees[|trees| - 1])
  }

  lemma {:induction false} KeysAreIds(tree: Tree, correction: Affine)
    ensures Snapped(tree, correction).Keys <= Ids(tree)
    decreases tree, 1
  {
    AllKeysAreIds(tree.children, HandedDown(tree, correction));
  }

  lemma {:induction false} AllKeysAreIds(trees: seq<Tree>, correction: Affine)
    ensures AllSnapped(trees, correction).Keys <= AllIds(trees)
    decreases trees, 0
  {
    if trees != [] {
      AllKeysAreIds(trees[..|trees| - 1], correction);
      KeysAreIds(trees[|trees| - 1], correction);
    }
  }

  lemma {:induction false} WriteKeepsUntouched(world: map<Id, Affine>, trees: seq<Tree>, id: Id, value: Affine)
    requires Untouched(world, trees) && id !in AllIds(trees)
    ensures Untouched(world[id := value], trees)
  {
    if trees != [] {
      WriteKeepsUntouched(world, trees[..|trees| - 1], id, value);
      WriteKeepsUntouched(world, trees[|trees| - 1].children, id, value);
    }
  }

  lemma {:induction false} Append(trees: seq<Tree>, more: seq<Tree>)
    ensures AllIds(trees + more) == AllIds(trees) + AllIds(more)
    ensures AllSize(trees + more) == AllSize(trees) + AllSize(more)
    ensures forall world :: Untouched(world, trees + more) == (Untouched(world, trees) && Untouched(world, more))
    ensures AllDistinct(trees + more) == (AllDistinct(trees) && AllDistinct(more) && AllIds(trees) !! AllIds(more))
    decreases |more|
  {
    if more == [] {
      assert trees + more == trees;
    } else {
      var n := |more| - 1;
      assert (trees + more)[..|trees + more| - 1] == trees + more[..n];
      Append(trees, more[..n]);
    }
  }

  lemma Reassociate(a: map<Id, Affine>, b: map<Id, Affine>, c: map<Id, Affine>)
    ensures (a + b) + c == a + (b + c)
  {
  }

  lemma {:induction false} OwedAppend(rest: seq<Pending>, trees: seq<Tree>, correction: Affine)
    ensures Owed(rest + Handed(trees, correction)) == Owed(rest) + AllSnapped(trees, correction)
    decreases |trees|
  {
    if trees == [] {
      assert rest + Handed(trees, correction) == rest;
    } else {
      var n := |trees| - 1;
      var all := rest + Handed(trees, correction);
      assert all[..|all| - 1] == rest + Handed(trees[..n], correction) && all[|all| - 1] == Pending(trees[n], correction);
      OwedAppend(rest, trees[..n], correction);
      Reassociate(Owed(rest), AllSnapped(trees[..n], correction), Snapped(trees[n], correction));
    }
  }

  lemma {:induction false} OwedKeys(pending: seq<Pending>)
    ensures Owed(pending).Keys <= AllIds(TreesOf(pending))
    decreases |pending|
  {
    if pending != [] {
      var n := |pending| - 1;
      assert TreesOf(pending)[..n] == TreesOf(pending[..n]);
      OwedKeys(pending[..n]);
      KeysAreIds(pending[n].tree, pending[n].correction);
    }
  }

  lemma WriteFirst(world: map<Id, Affine>, owed: map<Id, Affine>, id: Id, value: Affine, more: map<Id, Affine>)
    requires id !in owed
    ensures world + (owed + (map[id := value] + more)) == world[id := value] + (owed + more)
  {
  }

  /** Popping one entry, adjusting its entity and pushing its children owes the rest of the same result. */
  lemma PopOwes(world: map<Id, Affine>, rest: seq<Pending>, top: Pending)
    requires AllIds(TreesOf(rest)) !! Ids(top.tree)
    ensures var tree := top.tree;
            var world' := Written(world, tree, top.correction);
            world + Owed(rest + [top])
            == world' + Owed(rest + Handed(tree.children, HandedDown(tree, top.correction)))
  {
    var tree, handed := top.tree, HandedDown(top.tree, top.correction);
    assert (rest + [top])[..|rest|] == rest;
    OwedAppend(rest, tree.children, handed);
    OwedKeys(rest);
    if tree.layout.Some? {
      WriteFirst(world, Owed(rest), tree.id, Adjusted(tree.marked, tree.layout.value, top.correction),
                 AllSnapped(tree.children, handed));
    } else {
      assert map[] + AllSnapped(tree.children, handed) == AllSnapped(tree.children, handed);
    }
  }

  /** The trees on the stack, and what was visited before, make up `whole`; nothing occurs twice. */
  ghost predicate Partition(visited: seq<Id>, trees: seq<Tree>, whole: set<Id>) {
    && AllDistinct(trees)
    && (forall i, j :: 0 <= i < j < |visited| ==> visited[i] != visited[j])
    && (set id | id in visited) !! AllIds(trees)
    && (set id | id in visited) + AllIds(trees) == whole
  }

  lemma PopPartition(visited: seq<Id>, rest: seq<Tree>, tree: Tree, whole: set<Id>)
    requires Partition(visited, rest + [tree], whole)
    ensures Partition(visited + [tree.id], rest + tree.children, whole)
    ensures AllIds(rest) !! Ids(tree) && tree.id !in AllIds(rest + tree.children)
    ensures AllSize(rest + tree.children) < AllSize(rest + [tree])
  {
    Append(rest, [tree]);
    Append(rest, tree.children);
    assert [tree][..0] == [] && AllIds([tree]) == Ids(tree);
    assert (set id | id in visited + [tree.id]) == (set id | id in visited) + {tree.id};
  }

  lemma OneTree(tree: Tree)
    ensures AllIds([tree]) == Ids(tree) && AllDistinct([tree]) == Distinct(tree)
    ensures forall world :: Untouched(world, [tree]) == Fresh(world, tree)
    ensures forall c :: TreesOf([Pending(tree, c)]) == [tree] && Owed([Pending(tree, c)]) == Snapped(tree, c)
  {
    assert [tree][..0] == [];
    forall c
      ensures TreesOf([Pending(tree, c)]) == [tree] && Owed([Pending(tree, c)]) == Snapped(tree, c)
    {
      assert [Pending(tree, c)][..0] == [];
      assert map[] + Snapped(tree, c) == Snapped(tree, c);
    }
  }

  /** Adjusts one entity in place, if it has a layout, and says what its children inherit. */
  method SnapNode(world: map<Id, Affine>, tree: Tree, inheritedCorrection: Affine)
    returns (world': map<Id, Affine>, correction: Affine)
    requires Fresh(world, tree)
    ensures world' == Written(world, tree, inheritedCorrection)
    ensures correction == HandedDown(tree, inheritedCorrection)
  {
    world', correction := world, inheritedCorrection;
    if tree.layout.Some? {
      var original := world[tree.id];
      var inherited := correction.After(original);
      var adjusted :=
        if tree.marked then SnappedTransform(inherited, tree.layout.value.size, tree.layout.value.target) else inherited;
      var determinant := original.Determinant();
      if adjusted != inherited && (determinant > EPSILON || determinant < -EPSILON) {
        correction := adjusted.After(original.Inverse());
      }
      if adjusted != original {
        world' := world[tree.id := adjusted];
      }
    }
  }

  /** The stack loop of one marked root. */
  method SnapTree(start: map<Id, Affine>, root: Tree) returns (world: map<Id, Affine>, visited: seq<Id>)
    requires Distinct(root) && Fresh(start, root)
    ensures world == start + Snapped(root, IDENTITY)
    ensures Partition(visited, [], Ids(root))
  {
    world, visited := start, [];
    var pending := [Pending(root, IDENTITY)];
    OneTree(root);
    hide Snapped;
    while pending != []
      invariant world + Owed(pending) == start + Snapped(root, IDENTITY)
      invariant Partition(visited, TreesOf(pending), Ids(root))
      invariant Untouched(world, TreesOf(pending))
      decreases AllSize(TreesOf(pending))
    {
      var top, rest := pending[|pending| - 1], pending[..|pending| - 1];
      assert pending == rest + [top] && TreesOf(pending) == TreesOf(rest) + [top.tree];
      PopOwesHere(world, visited, rest, top, Ids(root));
      var correction;
      world, correction := SnapNode(world, top.tree, top.correction);
      pending := rest + Handed(top.tree.children, correction);
      visited := visited + [top.tree.id];
    }
    assert world + map[] == world;
  }

  lemma PopOwesHere(world: map<Id, Affine>, visited: seq<Id>, rest: seq<Pending>, top: Pending, whole: set<Id>)
    requires Partition(visited, TreesOf(rest) + [top.tree], whole)
    requires Untouched(world, TreesOf(rest) + [top.tree])
    ensures Fresh(world, top.tree)
    ensures var tree, handed := top.tree, HandedDown(top.tree, top.correction);
            var pending := rest + Handed(tree.children, handed);
            var world' := Written(world, tree, top.correction);
            && world + Owed(rest + [top]) == world' + Owed(pending)
            && Partition(visited + [tree.id], TreesOf(pending), whole)
            && Untouched(world', TreesOf(pending))
            && AllSize(TreesOf(pending)) < AllSize(TreesOf(rest) + [tree])
  {
    var tree, handed := top.tree, HandedDown(top.tree, top.correction);
    assert TreesOf(rest + Handed(tree.children, handed)) == TreesOf(rest) + tree.children;
    PopPartition(visited, TreesOf(rest), tree, whole);
    PopOwes(world, rest, top);
    Append(TreesOf(rest), [tree]);
    assert [tree][..0] == [] && Fresh(world, tree);
    Append(TreesOf(rest), tree.children);
    if tree.layout.Some? {
      WriteKeepsUntouched(world, TreesOf(rest) + tree.children, tree.id,
                          Adjusted(tree.marked, tree.layout.value, top.correction));
    }
  }

  // ---------------------------------------------------------------------
  // All marked roots, in any order
  // ---------------------------------------------------------------------

  /** A marked entity; `covered` if one of its ancestors is marked too. */
  datatype Mark = Mark(tree: Tree, covered: bool)

  function MarksOf(tree: Tree, covered: bool): seq<Mark> {
    (if tree.marked then [Mark(tree, covered)] else []) + Marks(tree.children, covered || tree.marked)
  }

  function Marks(trees: seq<Tree>, covered: bool): seq<Mark> {
    if trees == [] then [] else Marks(trees[..|trees| - 1], covered) + MarksOf(trees[|trees| - 1], covered)
  }

  lemma {:induction false} CoveredMarks(trees: seq<Tree>)
    ensures forall m | m in Marks(trees, true) :: m.covered
  {
    if trees != [] {
      CoveredMarks(trees[..|trees| - 1]);
      CoveredMarks(trees[|trees| - 1].children);
    }
  }

  /** A marked entity's tree is part of the forest it was found in. */
  lemma {:induction false} MarkIsWithin(trees: seq<Tree>, covered: bool, m: Mark)
    requires m in Marks(trees, covered)
    ensures Ids(m.tree) <= AllIds(trees)
    ensures AllDistinct(trees) ==> Distinct(m.tree)
    ensures forall world :: Untouched(world, trees) ==> Fresh(world, m.tree)
  {
    var last := trees[|trees| - 1];
    assert AllDistinct(trees) ==> AllDistinct(trees[..|trees| - 1]) && Distinct(last);
    if m in Marks(trees[..|trees| - 1], covered) {
      MarkIsWithin(trees[..|trees| - 1], covered, m);
    } else if m != Mark(last, covered) {
      MarkIsWithin(last.children, covered || last.marked, m);
    }
  }

  /** Two marked entities without marked ancestors have nothing in common. */
  lemma {:induction false} TopmostMarksAreApart(trees: seq<Tree>, a: Mark, b: Mark)
    requires AllDistinct(trees) && a in Marks(trees, false) && b in Marks(trees, false)
    requires !a.covered && !b.covered && a != b
    ensures Ids(a.tree) !! Ids(b.tree)
  {
    var init, last := trees[..|trees| - 1], trees[|trees| - 1];
    CoveredMarks(last.children);
    if a in Marks(init, false) {
      MarkIsWithin(init, false, a);
      if b in Marks(init, false) {
        TopmostMarksAreApart(init, a, b);
      } else {
        MarkInTree(last, b);
      }
    } else {
      MarkInTree(last, a);
      if b in Marks(init, false) {
        MarkIsWithin(init, false, b);
      } else if !last.marked {
        TopmostMarksAreApart(last.children, a, b);
      }
    }
  }

  lemma MarkInTree(tree: Tree, m: Mark)
    requires m in MarksOf(tree, false)
    ensures Ids(m.tree) <= Ids(tree)
  {
    if m != Mark(tree, false) {
      MarkIsWithin(tree.children, tree.marked, m);
    }
  }

  /** The pass writes what snapping each topmost marked tree on its own writes, and nothing else. */
  lemma {:induction false} PassKeys(trees: seq<Tree>)
    ensures Pass(trees).Keys <= AllIds(trees)
    decreases trees
  {
    if trees != [] {
      var last := trees[|trees| - 1];
      PassKeys(trees[..|trees| - 1]);
      PassKeys(last.children);
      KeysAreIds(last, IDENTITY);
    }
  }

  lemma {:induction false} PassContains(trees: seq<Tree>, m: Mark, k: Id)
    requires AllDistinct(trees) && m in Marks(trees, false) && !m.covered && k in Snapped(m.tree, IDENTITY)
    ensures k in Pass(trees) && Pass(trees)[k] == Snapped(m.tree, IDENTITY)[k]
  {
    var init, last := trees[..|trees| - 1], trees[|trees| - 1];
    CoveredMarks(last.children);
    KeysAreIds(m.tree, IDENTITY);
    if m in Marks(init, false) {
      MarkIsWithin(init, false, m);
      PassContains(init, m, k);
      PassKeys(last.children);
      KeysAreIds(last, IDENTITY);
    } else if !last.marked {
      PassContains(last.children, m, k);
    }
  }

  lemma {:induction false} PassComesFrom(trees: seq<Tree>, k: Id) returns (m: Mark)
    requires k in Pass(trees)
    ensures m in Marks(trees, false) && !m.covered && k in Snapped(m.tree, IDENTITY)
  {
    var init, last := trees[..|trees| - 1], trees[|trees| - 1];
    if last.marked && k in Snapped(last, IDENTITY) {
      m := Mark(last, false);
    } else if !last.marked && k in Pass(last.children) {
      m := PassComesFrom(last.children, k);
    } else {
      m := PassComesFrom(init, k);
    }
  }

  lemma {:induction false} StaysUntouched(world: map<Id, Affine>, more: map<Id, Affine>, trees: seq<Tree>)
    requires Untouched(world, trees) && more.Keys !! AllIds(trees)
    ensures Untouched(world + more, trees)
  {
    if trees != [] {
      StaysUntouched(world, more, trees[..|trees| - 1]);
      StaysUntouched(world, more, trees[|trees| - 1].children);
    }
  }

  /** Nothing was written but what the pass writes. */
  ghost predicate Agrees(start: map<Id, Affine>, world: map<Id, Affine>, pass: map<Id, Affine>) {
    && start.Keys <= world.Keys
    && forall k | k in world :: (k in start && world[k] == start[k]) || (k in pass && world[k] == pass[k])
  }

  /** The trees of the topmost among the first `i` marks are as the pass leaves them. */
  ghost predicate Handled(world: map<Id, Affine>, pass: map<Id, Affine>, order: seq<Mark>, i: nat)
    requires i <= |order|
  {
    forall j, k | 0 <= j < i && !order[j].covered && k in Snapped(order[j].tree, IDENTITY) ::
      k in pass && k in world && world[k] == pass[k]
  }

  /** Those of the other topmost marks have not been touched. */
  ghost predicate Ahead(world: map<Id, Affine>, order: seq<Mark>, i: nat) {
    forall j | i <= j < |order| && !order[j].covered :: Fresh(world, order[j].tree)
  }

  ghost predicate Progress(start: map<Id, Affine>, world: map<Id, Affine>, pass: map<Id, Affine>, order: seq<Mark>, i: nat)
    requires i <= |order|
  {
    Agrees(start, world, pass) && Handled(world, pass, order, i) && Ahead(world, order, i)
  }

  /** What one mark writes is what the pass writes there, and leaves the other topmost trees alone. */
  lemma MarkWrites(world: map<Id, Affine>, forest: seq<Tree>, a: Mark, b: Mark)
    requires AllDistinct(forest) && a in Marks(forest, false) && b in Marks(forest, false)
    requires !a.covered && !b.covered && a != b && Fresh(world, b.tree)
    ensures Fresh(world + Snapped(a.tree, IDENTITY), b.tree)
  {
    KeysAreIds(a.tree, IDENTITY);
    TopmostMarksAreApart(forest, a, b);
    StaysUntouched(world, Snapped(a.tree, IDENTITY), b.tree.children);
  }

  /** The tree of one mark agrees with the pass. */
  lemma MarkAgrees(forest: seq<Tree>, order: seq<Mark>, i: nat)
    requires AllDistinct(forest) && i < |order| && !order[i].covered
    requires forall m :: m in order <==> m in Marks(forest, false)
    ensures AgreesWith(Snapped(order[i].tree, IDENTITY), Pass(forest))
  {
    assert order[i] in order;
    forall k | k in Snapped(order[i].tree, IDENTITY)
      ensures k in Pass(forest) && Pass(forest)[k] == Snapped(order[i].tree, IDENTITY)[k]
    {
      PassContains(forest, order[i], k);
    }
  }

  ghost predicate AgreesWith(written: map<Id, Affine>, pass: map<Id, Affine>) {
    forall k | k in written :: k in pass && pass[k] == written[k]
  }

  lemma WritesAgree(start: map<Id, Affine>, world: map<Id, Affine>, pass: map<Id, Affine>, written: map<Id, Affine>)
    requires Agrees(start, world, pass) && AgreesWith(written, pass)
    ensures Agrees(start, world + written, pass)
  {
  }

  lemma OneMoreHandled(world: map<Id, Affine>, pass: map<Id, Affine>, order: seq<Mark>, i: nat)
    requires i < |order| && Handled(world, pass, order, i) && AgreesWith(Snapped(order[i].tree, IDENTITY), pass)
    ensures Handled(world + Snapped(order[i].tree, IDENTITY), pass, order, i + 1)
  {
    hide Snapped;
  }

  lemma OthersStayFresh(world: map<Id, Affine>, forest: seq<Tree>, order: seq<Mark>, i: nat)
    requires AllDistinct(forest) && i < |order| && !order[i].covered
    requires forall m :: m in order <==> m in Marks(forest, false)
    requires forall a, b :: 0 <= a < b < |order| ==> order[a] != order[b]
    requires Ahead(world, order, i)
    ensures Ahead(world + Snapped(order[i].tree, IDENTITY), order, i + 1)
  {
    hide Snapped, Marks, AllDistinct, Fresh;
    assert order[i] in order;
    forall j | i + 1 <= j < |order| && !order[j].covered
      ensures Fresh(world + Snapped(order[i].tree, IDENTITY), order[j].tree)
    {
      assert order[j] in order;
      MarkWrites(world, forest, order[i], order[j]);
    }
  }

  lemma MarkProgress(start: map<Id, Affine>, world: map<Id, Affine>, forest: seq<Tree>, order: seq<Mark>, i: nat)
    requires AllDistinct(forest) && i < |order| && !order[i].covered
    requires forall m :: m in order <==> m in Marks(forest, false)
    requires forall a, b :: 0 <= a < b < |order| ==> order[a] != order[b]
    requires Progress(start, world, Pass(forest), order, i)
    ensures Progress(start, world + Snapped(order[i].tree, IDENTITY), Pass(forest), order, i + 1)
  {
    hide Snapped, Pass, Marks, AllDistinct, Agrees, Handled, Ahead;
    MarkAgrees(forest, order, i);
    WritesAgree(start, world, Pass(forest), Snapped(order[i].tree, IDENTITY));
    OneMoreHandled(world, Pass(forest), order, i);
    OthersStayFresh(world, forest, order, i);
  }

  /** Each entity of the topmost marked trees among the first `i` marks was visited once, and no other. */
  ghost predicate VisitedOnce(visited: seq<Id>, order: seq<Mark>, i: nat)
    requires i <= |order|
  {
    && (forall a, b :: 0 <= a < b < |visited| ==> visited[a] != visited[b])
    && (forall id :: id in visited <==> exists j :: 0 <= j < i && !order[j].covered && id in Ids(order[j].tree))
  }

  lemma MarkVisited(visited: seq<Id>, more: seq<Id>, forest: seq<Tree>, order: seq<Mark>, i: nat)
    requires AllDistinct(forest) && i < |order| && !order[i].covered
    requires forall m :: m in order <==> m in Marks(forest, false)
    requires forall a, b :: 0 <= a < b < |order| ==> order[a] != order[b]
    requires VisitedOnce(visited, order, i) && Partition(more, [], Ids(order[i].tree))
    ensures VisitedOnce(visited + more, order, i + 1)
  {
    assert forall id :: id in more <==> id in (set other | other in more);
    forall id | id in visited
      ensures id !in more
    {
      var j :| 0 <= j < i && !order[j].covered && id in Ids(order[j].tree);
      assert order[i] in order && order[j] in order;
      TopmostMarksAreApart(forest, order[i], order[j]);
    }
    assert forall id :: id in visited + more <==> id in visited || id in more;
    forall a, b | 0 <= a < b < |visited + more|
      ensures (visited + more)[a] != (visited + more)[b]
    {
      assert a < |visited| <= b ==> (visited + more)[a] in visited && (visited + more)[b] in more;
    }
  }

  lemma MarksAreFresh(start: map<Id, Affine>, forest: seq<Tree>, order: seq<Mark>)
    requires AllDistinct(forest) && Untouched(start, forest)
    requires forall m :: m in order <==> m in Marks(forest, false)
    ensures forall j :: 0 <= j < |order| ==> Distinct(order[j].tree)
    ensures Progress(start, start, Pass(forest), order, 0) && VisitedOnce([], order, 0)
  {
    forall j | 0 <= j < |order|
      ensures Distinct(order[j].tree) && Fresh(start, order[j].tree)
    {
      assert order[j] in order;
      MarkIsWithin(forest, false, order[j]);
    }
  }

  lemma SkipCovered(start: map<Id, Affine>, world: map<Id, Affine>, pass: map<Id, Affine>, visited: seq<Id>,
                    order: seq<Mark>, i: nat)
    requires i < |order| && Progress(start, world, pass, order, i) && VisitedOnce(visited, order, i)
    ensures order[i].covered ==> Progress(start, world, pass, order, i + 1) && VisitedOnce(visited, order, i + 1)
    ensures !order[i].covered ==> Fresh(world, order[i].tree)
  {
  }

  lemma PassIsDone(start: map<Id, Affine>, world: map<Id, Affine>, forest: seq<Tree>, order: seq<Mark>)
    requires forall m :: m in order <==> m in Marks(forest, false)
    requires Progress(start, world, Pass(forest), order, |order|)
    ensures world == start + Pass(forest)
  {
    forall k | k in Pass(forest)
      ensures k in world && world[k] == Pass(forest)[k]
    {
      var m := PassComesFrom(forest, k);
      assert m in order;
    }
  }

  /** The whole pass, whatever the order in which the marked entities are met. */
  method SnapNodes(start: map<Id, Affine>, forest: seq<Tree>, order: seq<Mark>)
    returns (world: map<Id, Affine>, visited: seq<Id>)
    requires AllDistinct(forest) && Untouched(start, forest)
    requires forall m :: m in order <==> m in Marks(forest, false)
    requires forall a, b :: 0 <= a < b < |order| ==> order[a] != order[b]
    ensures world == start + Pass(forest)
    ensures VisitedOnce(visited, order, |order|)
  {
    world, visited := start, [];
    MarksAreFresh(start, forest, order);
    hide Snapped, Pass, Fresh, Progress, VisitedOnce, Partition, Distinct;
    for i := 0 to |order|
      invariant Progress(start, world, Pass(forest), order, i)
      invariant VisitedOnce(visited, order, i)
    {
      SkipCovered(start, world, Pass(forest), visited, order, i);
      if !order[i].covered {
        MarkProgress(start, world, forest, order, i);
        var more;
        world, more := SnapTree(world, order[i].tree);
        MarkVisited(visited, more, forest, order, i);
        visited := visited + more;
      }
    }
    PassIsDone(start, world, forest, order);
  }

  // ---------------------------------------------------------------------
  // What the pass means for nodes and their descendants
  // ---------------------------------------------------------------------

  /** `node` hangs in `tree`, and a pass that hands `correction` to the tree hands `given` to the node. */
  ghost predicate Reaches(tree: Tree, correction: Affine, node: Tree, given: Affine) {
    (node == tree && given == correction) || AllReach(tree.children, HandedDown(tree, correction), node, given)
  }

  ghost predicate AllReach(trees: seq<Tree>, correction: Affine, node: Tree, given: Affine) {
    trees != [] &&
    (|| AllReach(trees[..|trees| - 1], correction, node, given)
     || Reaches(trees[|trees| - 1], correction, node, given))
  }

  /** The whole pass hands `given` to the node: it is a topmost mark, or hangs below one. */
  ghost predicate PassReaches(trees: seq<Tree>, node: Tree, given: Affine) {
    trees != [] &&
    (|| PassReaches(trees[..|trees| - 1], node, given)
     || if trees[|trees| - 1].marked then Reaches(trees[|trees| - 1], IDENTITY, node, given)
        else PassReaches(trees[|trees| - 1].children, node, given))
  }

  lemma {:induction false} ReachedIsWithin(tree: Tree, correction: Affine, node: Tree, given: Affine)
    requires Reaches(tree, correction, node, given)
    ensures node.id in Ids(tree)
    decreases tree, 1
  {
    if AllReach(tree.children, HandedDown(tree, correction), node, given) {
      AllReachedAreWithin(tree.children, HandedDown(tree, correction), node, given);
    }
  }

  lemma {:induction false} AllReachedAreWithin(trees: seq<Tree>, correction: Affine, node: Tree, given: Affine)
    requires AllReach(trees, correction, node, given)
    ensures node.id in AllIds(trees)
    decreases trees, 0
  {
    if AllReach(trees[..|trees| - 1], correction, node, given) {
      AllReachedAreWithin(trees[..|trees| - 1], correction, node, given);
    } else {
      ReachedIsWithin(trees[|trees| - 1], correction, node, given);
    }
  }

  /** `world` has the adjusted transform of a node that was given a correction. */
  predicate Has(world: map<Id, Affine>, node: Tree, given: Affine) {
    node.layout.Some? ==> node.id in world && world[node.id] == Adjusted(node.marked, node.layout.value, given)
  }

  lemma {:induction false} ReachedIsAdjusted(tree: Tree, correction: Affine, node: Tree, given: Affine)
    requires Distinct(tree) && Reaches(tree, correction, node, given)
    ensures Has(Snapped(tree, correction), node, given)
    decreases tree, 1
  {
    var handed := HandedDown(tree, correction);
    AllKeysAreIds(tree.children, handed);
    if AllReach(tree.children, handed, node, given) {
      AllReachedAreAdjusted(tree.children, handed, node, given);
    }
  }

  lemma {:induction false} AllReachedAreAdjusted(trees: seq<Tree>, correction: Affine, node: Tree, given: Affine)
    requires AllDistinct(trees) && AllReach(trees, correction, node, given)
    ensures Has(AllSnapped(trees, correction), node, given)
    decreases trees, 0
  {
    var init, last := trees[..|trees| - 1], trees[|trees| - 1];
    KeysAreIds(last, correction);
    if AllReach(init, correction, node, given) {
      AllReachedAreAdjusted(init, correction, node, given);
      AllReachedAreWithin(init, correction, node, given);
    } else {
      ReachedIsAdjusted(last, correction, node, given);
    }
    hide Snapped, Reaches, Adjusted;
  }

  lemma {:induction false} PassReachedIsWithin(trees: seq<Tree>, node: Tree, given: Affine)
    requires PassReaches(trees, node, given)
    ensures node.id in AllIds(trees)
  {
    var init, last := trees[..|trees| - 1], trees[|trees| - 1];
    if PassReaches(init, node, given) {
      PassReachedIsWithin(init, node, given);
    } else if last.marked {
      ReachedIsWithin(last, IDENTITY, node, given);
    } else {
      PassReachedIsWithin(last.children, node, given);
    }
  }

  /** The pass leaves every node it reaches with the correction it hands there, however deep that hangs. */
  lemma {:induction false} PassReachedIsAdjusted(trees: seq<Tree>, node: Tree, given: Affine)
    requires AllDistinct(trees) && PassReaches(trees, node, given)
    ensures Has(Pass(trees), node, given)
  {
    var init, last := trees[..|trees| - 1], trees[|trees| - 1];
    KeysAreIds(last, IDENTITY);
    PassKeys(last.children);
    if PassReaches(init, node, given) {
      PassReachedIsAdjusted(init, node, given);
      PassReachedIsWithin(init, node, given);
    } else if last.marked {
      ReachedIsAdjusted(last, IDENTITY, node, given);
    } else {
      PassReachedIsAdjusted(last.children, node, given);
    }
    hide Snapped, Reaches, Adjusted;
  }

  lemma AlignedProducts(a: Affine, b: Affine)
    requires AxisAligned(a)
    ensures AxisAligned(a.After(b)) <==> AxisAligned(b)
    ensures AxisAligned(b) ==> AxisAligned(b.Inverse())
  {
    Signs(a.xx, b.xx);
    Signs(a.yy, b.yy);
    if AxisAligned(b) {
      Signs(b.xx, b.yy);
    }
  }

  lemma Signs(a: real, b: real)
    requires a > 0.0
    ensures (a * b > 0.0 <==> b > 0.0) && (a * b == 0.0 <==> b == 0.0)
  {
  }

  /** Only axis-aligned transforms are snapped, so every correction is axis-aligned. */
  lemma HandsDownAligned(tree: Tree, correction: Affine)
    requires AxisAligned(correction)
    ensures AxisAligned(HandedDown(tree, correction))
  {
    if tree.layout.Some? && HandedDown(tree, correction) != correction {
      var layout := tree.layout.value;
      AlignedProducts(correction, layout.transform);
      SnapAxes(correction.After(layout.transform), layout.size, layout.target);
      AlignedProducts(Adjusted(tree.marked, layout, correction), layout.transform.Inverse());
    }
  }

  lemma {:induction false} ReachedAligned(tree: Tree, correction: Affine, node: Tree, given: Affine)
    requires AxisAligned(correction) && Reaches(tree, correction, node, given)
    ensures AxisAligned(given)
    decreases tree, 1
  {
    if AllReach(tree.children, HandedDown(tree, correction), node, given) {
      HandsDownAligned(tree, correction);
      AllReachedAligned(tree.children, HandedDown(tree, correction), node, given);
    }
  }

  lemma {:induction false} AllReachedAligned(trees: seq<Tree>, correction: Affine, node: Tree, given: Affine)
    requires AxisAligned(correction) && AllReach(trees, correction, node, given)
    ensures AxisAligned(given)
    decreases trees, 0
  {
    if AllReach(trees[..|trees| - 1], correction, node, given) {
      AllReachedAligned(trees[..|trees| - 1], correction, node, given);
    } else {
      ReachedAligned(trees[|trees| - 1], correction, node, given);
    }
  }

  lemma {:induction false} PassReachedAligned(trees: seq<Tree>, node: Tree, given: Affine)
    requires PassReaches(trees, node, given)
    ensures AxisAligned(given)
  {
    var init, last := trees[..|trees| - 1], trees[|trees| - 1];
    if PassReaches(init, node, given) {
      PassReachedAligned(init, node, given);
    } else if last.marked {
      ReachedAligned(last, IDENTITY, node, given);
    } else {
      PassReachedAligned(last.children, node, given);
    }
  }

  /** The pass reaches every mark, covered or not. */
  lemma {:induction false} CoveredMarkIsReached(trees: seq<Tree>, correction: Affine, m: Mark) returns (given: Affine)
    requires m in Marks(trees, true)
    ensures AllReach(trees, correction, m.tree, given)
  {
    var init, last := trees[..|trees| - 1], trees[|trees| - 1];
    if m in Marks(init, true) {
      given := CoveredMarkIsReached(init, correction, m);
    } else if m == Mark(last, true) && last.marked {
      given := correction;
    } else {
      given := CoveredMarkIsReached(last.children, HandedDown(last, correction), m);
    }
  }

  lemma {:induction false} MarkIsReached(trees: seq<Tree>, m: Mark) returns (given: Affine)
    requires m in Marks(trees, false)
    ensures PassReaches(trees, m.tree, given)
  {
    var init, last := trees[..|trees| - 1], trees[|trees| - 1];
    if m in Marks(init, false) {
      given := MarkIsReached(init, m);
    } else if last.marked {
      given := IDENTITY;
      if m != Mark(last, false) {
        given := CoveredMarkIsReached(last.children, HandedDown(last, IDENTITY), m);
      }
    } else {
      given := MarkIsReached(last.children, m);
    }
  }

  /**
   In the world the pass leaves, every marked node of positive size that layout placed axis-aligned has its
   corner on whole pixels, and its target's extent if it has one, at any depth and below any other marks.
   Every other marked node is where its nearest marked ancestors put it.
   */
  lemma MarkedNodesLandOnPixels(start: map<Id, Affine>, forest: seq<Tree>, m: Mark) returns (given: Affine)
    requires AllDistinct(forest) && m in Marks(forest, false) && m.tree.layout.Some?
    ensures PassReaches(forest, m.tree, given) && AxisAligned(given) && m.tree.id in start + Pass(forest)
    ensures var layout, u := m.tree.layout.value, (start + Pass(forest))[m.tree.id];
            if Positive(layout.size) && AxisAligned(layout.transform) then
              && AxisAligned(u) && Whole(Origin(u, layout.size).x) && Whole(Origin(u, layout.size).y)
              && Origin(u, layout.size) == RoundPoint(Origin(given.After(layout.transform), layout.size))
              && u.Vector(layout.size) == Wanted(given.After(layout.transform), layout.size, layout.target)
              && (if layout.target.Some? && layout.target.value.x > 0.0 && layout.target.value.y > 0.0
                  then u.Vector(layout.size) == layout.target.value
                  else u.Vector(layout.size) == given.After(layout.transform).Vector(layout.size))
            else u == given.After(layout.transform)
  {
    given := MarkIsReached(forest, m);
    PassReachedIsAdjusted(forest, m.tree, given);
    PassReachedAligned(forest, m.tree, given);
    MarksAreMarked(forest, false, m);
    var layout := m.tree.layout.value;
    AlignedProducts(given, layout.transform);
    if Positive(layout.size) && AxisAligned(layout.transform) {
      SnapLandsOnPixels(given.After(layout.transform), layout.size, layout.target);
    }
    hide PassReaches, Pass, Marks, Whole, Origin, RoundPoint, Affine.Vector, Affine.After, Wanted;
  }

  lemma {:induction false} MarksAreMarked(trees: seq<Tree>, covered: bool, m: Mark)
    requires m in Marks(trees, covered)
    ensures m.tree.marked
  {
    var init, last := trees[..|trees| - 1], trees[|trees| - 1];
    if m in Marks(init, covered) {
      MarksAreMarked(init, covered, m);
    } else if m in Marks(last.children, covered || last.marked) {
      MarksAreMarked(last.children, covered || last.marked, m);
    }
  }

  /** `node` hangs in these trees, and neither it nor anything above it is marked. */
  ghost predicate Follows(trees: seq<Tree>, node: Tree) {
    trees != [] &&
    (|| Follows(trees[..|trees| - 1], node)
     || (!trees[|trees| - 1].marked && (node == trees[|trees| - 1] || Follows(trees[|trees| - 1].children, node))))
  }

  /** An unmarked entity hands down the correction it was given. */
  lemma {:induction false} FollowersAreReached(trees: seq<Tree>, correction: Affine, node: Tree)
    requires Follows(trees, node)
    ensures AllReach(trees, correction, node, correction) && !node.marked
  {
    var init, last := trees[..|trees| - 1], trees[|trees| - 1];
    if Follows(init, node) {
      FollowersAreReached(init, correction, node);
    } else if node != last {
      FollowersAreReached(last.children, correction, node);
    }
  }

  lemma {:induction false} ReachesOn(tree: Tree, correction: Affine, a: Tree, own: Affine, node: Tree, given: Affine)
    requires Reaches(tree, correction, a, own) && AllReach(a.children, HandedDown(a, own), node, given)
    ensures Reaches(tree, correction, node, given)
    decreases tree, 1
  {
    if AllReach(tree.children, HandedDown(tree, correction), a, own) {
      AllReachOn(tree.children, HandedDown(tree, correction), a, own, node, given);
    }
  }

  lemma {:induction false} AllReachOn(trees: seq<Tree>, correction: Affine, a: Tree, own: Affine, node: Tree, given: Affine)
    requires AllReach(trees, correction, a, own) && AllReach(a.children, HandedDown(a, own), node, given)
    ensures AllReach(trees, correction, node, given)
    decreases trees, 0
  {
    if AllReach(trees[..|trees| - 1], correction, a, own) {
      AllReachOn(trees[..|trees| - 1], correction, a, own, node, given);
    } else {
      ReachesOn(trees[|trees| - 1], correction, a, own, node, given);
    }
  }

  lemma {:induction false} PassReachesOn(trees: seq<Tree>, a: Tree, own: Affine, node: Tree, given: Affine)
    requires PassReaches(trees, a, own) && AllReach(a.children, HandedDown(a, own), node, given)
    ensures PassReaches(trees, node, given)
  {
    var init, last := trees[..|trees| - 1], trees[|trees| - 1];
    if PassReaches(init, a, own) {
      PassReachesOn(init, a, own, node, given);
    } else if last.marked {
      ReachesOn(last, IDENTITY, a, own, node, given);
    } else {
      PassReachesOn(last.children, a, own, node, given);
    }
  }

  /**
   In the world the pass leaves, an unmarked entity carries the correction its nearest marked ancestor hands
   down, whatever is marked below or beside it. If that ancestor's determinant exceeds the threshold, the
   entity is placed relative to it just as layout had placed it.
   */
  lemma UnmarkedNodesFollow(start: map<Id, Affine>, forest: seq<Tree>, m: Mark, node: Tree) returns (given: Affine)
    requires AllDistinct(forest) && m in Marks(forest, false) && Follows(m.tree.children, node) && node.layout.Some?
    ensures PassReaches(forest, m.tree, given) && node.id in start + Pass(forest)
    ensures (start + Pass(forest))[node.id] == HandedDown(m.tree, given).After(node.layout.value.transform)
    ensures m.tree.layout.Some? ==>
              var t := m.tree.layout.value.transform;
              && m.tree.id in start + Pass(forest)
              && (t.Determinant() > EPSILON || t.Determinant() < -EPSILON ==>
                    (start + Pass(forest))[node.id]
                    == (start + Pass(forest))[m.tree.id].After(t.Inverse()).After(node.layout.value.transform))
  {
    given := MarkIsReached(forest, m);
    var handed := HandedDown(m.tree, given);
    FollowersAreReached(m.tree.children, handed, node);
    PassReachesOn(forest, m.tree, given, node, handed);
    PassReachedIsAdjusted(forest, m.tree, given);
    PassReachedIsAdjusted(forest, node, handed);
    if m.tree.layout.Some? {
      HandsDownItsMove(m.tree, given);
    }
    hide PassReaches, Pass, Marks, Affine.After, Affine.Inverse, HandedDown;
  }

  lemma HandsDownItsMove(tree: Tree, given: Affine)
    requires tree.layout.Some?
    ensures var layout := tree.layout.value;
            var determinant := layout.transform.Determinant();
            determinant > EPSILON || determinant < -EPSILON ==>
              HandedDown(tree, given) == Adjusted(tree.marked, layout, given).After(layout.transform.Inverse())
  {
    var layout := tree.layout.value;
    var t, determinant := layout.transform, layout.transform.Determinant();
    if (determinant > EPSILON || determinant < -EPSILON) && Adjusted(tree.marked, layout, given) == given.After(t) {
      UndoesInverse(t);
      Associative(given, t, t.Inverse());
      NeutralRight(given);
    }
  }

  /** Whatever the pass writes belongs to a mark, or to an entity that follows its nearest mark. */
  lemma {:induction false} WrittenHasMark(trees: seq<Tree>, correction: Affine, id: Id) returns (m: Mark, node: Tree)
    requires id in AllSnapped(trees, correction)
    ensures node.id == id && node.layout.Some?
    ensures Follows(trees, node) || (m in Marks(trees, true) && (node == m.tree || Follows(m.tree.children, node)))
  {
    var init, last := trees[..|trees| - 1], trees[|trees| - 1];
    if id in AllSnapped(init, correction) {
      m, node := WrittenHasMark(init, correction, id);
    } else if last.layout.Some? && id == last.id {
      m, node := Mark(last, true), last;
    } else {
      m, node := WrittenHasMark(last.children, HandedDown(last, correction), id);
      if last.marked && Follows(last.children, node) {
        m := Mark(last, true);
      }
    }
  }

  lemma {:induction false} PassHasMark(trees: seq<Tree>, id: Id) returns (m: Mark, node: Tree)
    requires id in Pass(trees)
    ensures node.id == id && node.layout.Some?
    ensures m in Marks(trees, false) && (node == m.tree || Follows(m.tree.children, node))
  {
    var init, last := trees[..|trees| - 1], trees[|trees| - 1];
    if id in Pass(init) {
      m, node := PassHasMark(init, id);
    } else if !last.marked {
      m, node := PassHasMark(last.children, id);
    } else if last.layout.Some? && id == last.id {
      m, node := Mark(last, false), last;
    } else {
      m, node := WrittenHasMark(last.children, HandedDown(last, IDENTITY), id);
      if Follows(last.children, node) {
        m := Mark(last, false);
      }
    }
  }

  lemma IdentityIsNeutral(a: Affine)
    ensures IDENTITY.After(a) == a
  {
  }

  lemma Cancel(a: Affine, b: Affine, r: Affine, back: Affine)
    requires r.After(back) == IDENTITY && a.After(r) == b.After(r)
    ensures a == b
  {
    Associative(a, r, back);
    Associative(b, r, back);
    NeutralRight(a);
    NeutralRight(b);
  }

  lemma NeutralRight(a: Affine)
    ensures a.After(IDENTITY) == a
  {
  }

  /**
   A descendant placed by an invertible `relative` below a node keeps that place exactly if the node did not
   move or its determinant exceeds the threshold; otherwise the source leaves descendants behind.
   */
  lemma DescendantsKeepTheirPlace(marked: bool, layout: Layout, correction: Affine, relative: Affine, back: Affine)
    requires relative.After(back) == IDENTITY
    ensures var adjusted, determinant := Adjusted(marked, layout, correction), layout.transform.Determinant();
            Correction(marked, layout, correction).After(layout.transform.After(relative)) == adjusted.After(relative)
            <==> adjusted == correction.After(layout.transform) || determinant > EPSILON || determinant < -EPSILON
  {
    var t, adjusted, determinant := layout.transform, Adjusted(marked, layout, correction), layout.transform.Determinant();
    var handed := Correction(marked, layout, correction);
    if adjusted == correction.After(t) || !(determinant > EPSILON || determinant < -EPSILON) {
      Associative(correction, t, relative);
      if correction.After(t).After(relative) == adjusted.After(relative) {
        Cancel(correction.After(t), adjusted, relative, back);
      }
    } else {
      InverseUndoes(t);
      Associative(adjusted, t.Inverse(), t.After(relative));
      Associative(t.Inverse(), t, relative);
      IdentityIsNeutral(relative);
    }
  }
}
