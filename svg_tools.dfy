/**
 * The path flattening of client/js/svg-tools.js: the moveto/lineto/closepath
 * state machine of pathsFromSvg, the translate form of applyTransform, and
 * the viewBox normalisation of scaledPaths into the 0.5..10.5 square of the
 * turtle simulation. Path data arrives already parsed (one Segment per path
 * data command, as getPathData returns them) and every number arrives as a
 * parsed value.
 */
module SvgTools {
  import opened Options

  // ----- numbers -----

  /**
   * A JavaScript number as the flattening sees it: a finite value, or NaN.
   * NaN also stands for `undefined`, which is what a coordinate read from a
   * missing value or from the initial `false` point gives; after scaledPaths
   * divides it, both are NaN.
   */
  datatype Num = Real(value: real) | NaN

  /** JavaScript `+` on two coordinates. */
  function Plus(a: Num, b: Num): (r: Num)
    ensures r.Real? <==> a.Real? && b.Real?
    ensures r.Real? ==> r.value == a.value + b.value
  {
    if a.Real? && b.Real? then Real(a.value + b.value) else NaN
  }

  /** An [X, Y] point. */
  datatype Point = Point(x: Num, y: Num)

  /** The initial originPoint and lastPoint, `false` (:39-40): both coordinates read as undefined. */
  const Unset: Point := Point(NaN, NaN)

  // ----- parsed input -----

  /** One command of a path's data: its type letter and its numbers. */
  datatype Segment = Segment(kind: char, values: seq<real>)

  /** values[i] of a segment, undefined (NaN) when the segment has fewer numbers. */
  function Value(s: Segment, i: nat): (r: Num)
    ensures r.Real? <==> i < |s.values|
    ensures r.Real? ==> r.value == s.values[i]
  {
    if i < |s.values| then Real(s.values[i]) else NaN
  }

  /**
   * The transform attribute of a path: absent or empty, a `translate(...)`
   * whose argument text split into the parsed amounts `first` and `more`,
   * or anything else.
   */
  datatype Transform = NoTransform | Translate(first: Num, more: seq<Num>) | Unsupported

  /** A path element: its parsed data and its transform attribute. */
  datatype PathElement = PathElement(segments: seq<Segment>, transform: Transform)

  /** The viewBox attribute: min-x, min-y, width and height. */
  datatype ViewBox = ViewBox(minX: real, minY: real, width: real, height: real)
  {
    function LongerSide(): real {
      if width > height then width else height
    }

    function XOffset(): real
      requires LongerSide() != 0.0
    {
      (LongerSide() - width) * (5.0 / LongerSide()) + 0.5
    }

    function YOffset(): real
      requires LongerSide() != 0.0
    {
      10.5 - (LongerSide() - height) * (5.0 / LongerSide())
    }
  }

  // ----- applyTransform -----

  /** translateY: the second amount, or 0.0 when the split gave only one. */
  function TranslateY(t: Transform): Num
    requires t.Translate?
  {
    if |t.more| > 0 then t.more[0] else Real(0.0)
  }

  function Shift(p: Point, t: Transform): Point
    requires t.Translate?
  {
    Point(Plus(p.x, t.first), Plus(p.y, TranslateY(t)))
  }

  /**
   * applyTransform (:109-123): the points unchanged without a transform, each
   * point moved by (translateX, translateY) for a translate, and `undefined`
   * (None) for any other transform.
   */
  function ApplyTransform(points: seq<Point>, t: Transform): (r: Option<seq<Point>>)
    ensures r.None? <==> t.Unsupported?
    ensures t.NoTransform? ==> r == Some(points)
    ensures t.Translate? ==> |r.value| == |points|
    ensures t.Translate? ==> forall i :: 0 <= i < |points| ==>
              r.value[i].x == Plus(points[i].x, t.first) && r.value[i].y == Plus(points[i].y, TranslateY(t))
  {
    match t
    case NoTransform => Some(points)
    case Translate(_, _) => Some(seq(|points|, i requires 0 <= i < |points| => Shift(points[i], t)))
    case Unsupported => None
  }

  /** translate(1 1) maps [[1,1],[3,3]] to [[2,2],[4,4]] (test/svg-tools.js:13-14). */
  lemma TranslateExample()
    ensures ApplyTransform([Point(Real(1.0), Real(1.0)), Point(Real(3.0), Real(3.0))], Translate(Real(1.0), [Real(1.0)]))
         == Some([Point(Real(2.0), Real(2.0)), Point(Real(4.0), Real(4.0))])
  {
    var r := ApplyTransform([Point(Real(1.0), Real(1.0)), Point(Real(3.0), Real(3.0))], Translate(Real(1.0), [Real(1.0)]));
    assert r.value[0] == Point(Real(2.0), Real(2.0));
    assert r.value[1] == Point(Real(4.0), Real(4.0));
    assert r.value == [Point(Real(2.0), Real(2.0)), Point(Real(4.0), Real(4.0))];
  }

  /** A translate with one amount moves along x only: it agrees with translate(tx 0). */
  lemma TranslateOneAmount(points: seq<Point>, tx: Num)
    ensures ApplyTransform(points, Translate(tx, [])) == ApplyTransform(points, Translate(tx, [Real(0.0)]))
    ensures forall i :: 0 <= i < |points| ==> ApplyTransform(points, Translate(tx, [])).value[i].y == points[i].y
  {
    var a := ApplyTransform(points, Translate(tx, [])).value;
    var b := ApplyTransform(points, Translate(tx, [Real(0.0)])).value;
    assert forall i :: 0 <= i < |points| ==> a[i] == b[i];
    assert a == b;
  }

  // ----- scaledPaths -----

  /** x ↦ x / L * 10 + xOffset (:17). */
  function MapX(v: real, vb: ViewBox): real
    requires vb.LongerSide() != 0.0
  {
    v / vb.LongerSide() * 10.0 + vb.XOffset()
  }

  /** y ↦ yOffset - y / L * 10 (:18): the y axis is flipped. */
  function MapY(v: real, vb: ViewBox): real
    requires vb.LongerSide() != 0.0
  {
    vb.YOffset() - v / vb.LongerSide() * 10.0
  }

  function ScaleX(n: Num, vb: ViewBox): Num
    requires vb.LongerSide() != 0.0
  {
    if n.Real? then Real(MapX(n.value, vb)) else NaN
  }

  function ScaleY(n: Num, vb: ViewBox): Num
    requires vb.LongerSide() != 0.0
  {
    if n.Real? then Real(MapY(n.value, vb)) else NaN
  }

  function ScalePoint(p: Point, vb: ViewBox): Point
    requires vb.LongerSide() != 0.0
  {
    Point(ScaleX(p.x, vb), ScaleY(p.y, vb))
  }

  /**
   * scaledPaths (:9-22): the same number of paths, each with the same
   * number of points, every point mapped by MapX and MapY.
   */
  function ScaledPaths(paths: seq<seq<Point>>, vb: ViewBox): (r: seq<seq<Point>>)
    requires vb.LongerSide() != 0.0
    ensures |r| == |paths|
    ensures forall i :: 0 <= i < |paths| ==> |r[i]| == |paths[i]|
    ensures forall i, j :: 0 <= i < |paths| && 0 <= j < |paths[i]| ==> r[i][j] == ScalePoint(paths[i][j], vb)
  {
    seq(|paths|, i requires 0 <= i < |paths| =>
      seq(|paths[i]|, j requires 0 <= j < |paths[i]| => ScalePoint(paths[i][j], vb)))
  }

  /** Only the width and the height of the viewBox matter, not its min-x and min-y. */
  lemma ScaledPathsIgnoreMin(paths: seq<seq<Point>>, vb: ViewBox, minX: real, minY: real)
    requires vb.LongerSide() != 0.0
    ensures ScaledPaths(paths, vb) == ScaledPaths(paths, vb.(minX := minX, minY := minY))
  {
    var a := ScaledPaths(paths, vb);
    var moved := vb.(minX := minX, minY := minY);
    var b := ScaledPaths(paths, moved);
    assert moved.LongerSide() == vb.LongerSide();
    assert moved.XOffset() == vb.XOffset() && moved.YOffset() == vb.YOffset();
    forall i | 0 <= i < |paths|
      ensures a[i] == b[i]
    {
      assert forall j :: 0 <= j < |paths[i]| ==> a[i][j] == b[i][j];
    }
  }

  /** a / L * 10, the part of MapX and MapY that varies, written as a product. */
  lemma ScaledTerm(a: real, l: real)
    requires l != 0.0
    ensures a / l * 10.0 == 10.0 * a * (1.0 / l)
    ensures (l - a) * (5.0 / l) == 5.0 - 5.0 * a * (1.0 / l)
  {
  }

  /** x = 0 and x = w hit the two sides; a point at most a side away stays in between. */
  lemma AxisInRange(v: real, side: real, l: real)
    requires 0.0 < side <= l && 0.0 <= v <= side
    ensures 0.0 <= v / l * 10.0 <= side / l * 10.0
    ensures side / l * 10.0 + (l - side) * (5.0 / l) <= 10.0
  {
    var q := 1.0 / l;
    assert q > 0.0;
    ScaledTerm(v, l);
    ScaledTerm(side, l);
    assert 10.0 * v * q <= 10.0 * side * q;
    assert side * q <= 1.0 by {
      assert side * q <= l * q;
    }
  }

  /** Every point of the viewBox rectangle lands in the square [0.5, 10.5] x [0.5, 10.5]. */
  lemma ScaledInSquare(x: real, y: real, vb: ViewBox)
    requires vb.width > 0.0 && vb.height > 0.0
    requires 0.0 <= x <= vb.width && 0.0 <= y <= vb.height
    ensures 0.5 <= MapX(x, vb) <= 10.5
    ensures 0.5 <= MapY(y, vb) <= 10.5
  {
    var l := vb.LongerSide();
    AxisInRange(x, vb.width, l);
    AxisInRange(y, vb.height, l);
    ScaledTerm(vb.width, l);
    ScaledTerm(vb.height, l);
    assert (l - vb.width) * (5.0 / l) >= 0.0;
    assert (l - vb.height) * (5.0 / l) >= 0.0;
  }

  /** The centre of the viewBox rectangle goes to (5.5, 5.5), the centre of the square. */
  lemma ScaledCentre(vb: ViewBox)
    requires vb.LongerSide() != 0.0
    ensures MapX(vb.width / 2.0, vb) == 5.5
    ensures MapY(vb.height / 2.0, vb) == 5.5
  {
    var l := vb.LongerSide();
    ScaledTerm(vb.width / 2.0, l);
    ScaledTerm(vb.width, l);
    ScaledTerm(vb.height / 2.0, l);
    ScaledTerm(vb.height, l);
  }

  /**
   * The longer side spans the whole square: with a positive longer side its
   * two ends go to 0.5 and 10.5.
   */
  lemma ScaledLongerSideSpans(vb: ViewBox)
    requires vb.LongerSide() > 0.0
    ensures vb.width >= vb.height ==> MapX(0.0, vb) == 0.5 && MapX(vb.width, vb) == 10.5
    ensures vb.height >= vb.width ==> MapY(0.0, vb) == 10.5 && MapY(vb.height, vb) == 0.5
  {
    var l := vb.LongerSide();
    ScaledTerm(0.0, l);
    ScaledTerm(vb.width, l);
    ScaledTerm(vb.height, l);
    assert l * (1.0 / l) == 1.0;
  }

  /**
   * One scale factor 10 / L on both axes, so shapes keep their proportions;
   * x keeps its direction and y is flipped.
   */
  lemma ScaledUniformly(a: real, b: real, vb: ViewBox)
    requires vb.LongerSide() > 0.0
    ensures MapX(b, vb) - MapX(a, vb) == (b - a) * 10.0 / vb.LongerSide()
    ensures MapY(b, vb) - MapY(a, vb) == (a - b) * 10.0 / vb.LongerSide()
    ensures a < b ==> MapX(a, vb) < MapX(b, vb) && MapY(a, vb) > MapY(b, vb)
  {
    var l := vb.LongerSide();
    ScaledTerm(a, l);
    ScaledTerm(b, l);
    ScaledTerm(b - a, l);
    ScaledTerm(a - b, l);
    assert (b - a) * 10.0 / l == 10.0 * (b - a) * (1.0 / l);
    assert (a - b) * 10.0 / l == 10.0 * (a - b) * (1.0 / l);
    assert a < b ==> 10.0 * (b - a) * (1.0 / l) > 0.0;
  }

  /** viewBox '0 0 5 5' maps (1,1) to (2.5,8.5) and (3,3) to (6.5,4.5) (test/svg-tools.js:6-7). */
  lemma ScaledExample()
    ensures ScaledPaths([[Point(Real(1.0), Real(1.0)), Point(Real(3.0), Real(3.0))]], ViewBox(0.0, 0.0, 5.0, 5.0))
         == [[Point(Real(2.5), Real(8.5)), Point(Real(6.5), Real(4.5))]]
  {
    var vb := ViewBox(0.0, 0.0, 5.0, 5.0);
    var r := ScaledPaths([[Point(Real(1.0), Real(1.0)), Point(Real(3.0), Real(3.0))]], vb);
    assert vb.XOffset() == 0.5 && vb.YOffset() == 10.5;
    assert r[0][0] == Point(Real(2.5), Real(8.5));
    assert r[0][1] == Point(Real(6.5), Real(4.5));
    assert r[0] == [Point(Real(2.5), Real(8.5)), Point(Real(6.5), Real(4.5))];
  }

  // ----- the command loop of pathsFromSvg -----

  /**
   * The state of the command loop for one path element: the subpaths flushed
   * so far (before their transform), absolutePoints, originPoint, lastPoint.
   */
  datatype Cursor = Cursor(done: seq<seq<Point>>, current: seq<Point>, origin: Point, last: Point)

  const Start: Cursor := Cursor([], [], Unset, Unset)

  /** The commands the loop acts on; any other type letter changes nothing. */
  predicate Draws(kind: char) {
    kind in {'M', 'm', 'L', 'l', 'H', 'h', 'V', 'v', 'Z', 'z'}
  }

  /** A new subpath starting at p; the one in progress is flushed when `flush` holds. */
  function MoveTo(c: Cursor, p: Point, flush: bool): Cursor {
    Cursor(if flush then c.done + [c.current] else c.done, [p], p, p)
  }

  /** p appended to the subpath in progress and made the last point. */
  function LineTo(c: Cursor, p: Point): Cursor {
    c.(current := c.current + [p], last := p)
  }

  /**
   * One pass of the loop body (:42-96). M flushes only a non-empty subpath,
   * m always flushes; the relative forms add to lastPoint; H keeps the last
   * y and V the last x; Z and z append originPoint and leave lastPoint alone.
   */
  function Step(c: Cursor, s: Segment): Cursor {
    match s.kind
    case 'M' => MoveTo(c, Point(Value(s, 0), Value(s, 1)), |c.current| > 0)
    case 'm' => MoveTo(c, Point(Plus(c.last.x, Value(s, 0)), Plus(c.last.y, Value(s, 1))), true)
    case 'L' => LineTo(c, Point(Value(s, 0), Value(s, 1)))
    case 'l' => LineTo(c, Point(Plus(c.last.x, Value(s, 0)), Plus(c.last.y, Value(s, 1))))
    case 'H' => LineTo(c, Point(Value(s, 0), c.last.y))
    case 'h' => LineTo(c, Point(Plus(c.last.x, Value(s, 0)), c.last.y))
    case 'V' => LineTo(c, Point(c.last.x, Value(s, 0)))
    case 'v' => LineTo(c, Point(c.last.x, Plus(c.last.y, Value(s, 0))))
    case 'Z' => c.(current := c.current + [c.origin])
    case 'z' => c.(current := c.current + [c.origin])
    case _ => c
  }

  /**
   * What one command does to the state: M and m start a subpath at their
   * point (m always flushing, M only a non-empty subpath), the other drawing
   * commands append exactly one point and keep the flushed subpaths and
   * originPoint, Z and z keep lastPoint, and any other command changes nothing.
   */
  lemma StepShape(c: Cursor, s: Segment)
    ensures !Draws(s.kind) ==> Step(c, s) == c
    ensures s.kind == 'M' || s.kind == 'm' ==>
              var r := Step(c, s); r.current == [r.origin] && r.last == r.origin
    ensures s.kind == 'm' ==> Step(c, s).done == c.done + [c.current]
    ensures s.kind == 'M' ==> Step(c, s).done == if c.current == [] then c.done else c.done + [c.current]
    ensures Draws(s.kind) && s.kind != 'M' && s.kind != 'm' ==>
              var r := Step(c, s);
              && r.done == c.done && r.origin == c.origin
              && |r.current| == |c.current| + 1 && r.current[..|c.current|] == c.current
              && r.current[|c.current|] == (if s.kind in "Zz" then c.origin else r.last)
    ensures s.kind == 'Z' || s.kind == 'z' ==> Step(c, s).last == c.last
  {
  }

  /** The state after the loop has run over segs, from the start of an element. */
  function Trace(segs: seq<Segment>): (r: Cursor)
    ensures |r.done| <= DrawingCount(segs)
  {
    if segs == [] then Start else Step(Trace(segs[..|segs| - 1]), segs[|segs| - 1])
  }

  /** The subpaths of one element, the final one included (:98). */
  function Subpaths(segs: seq<Segment>): (r: seq<seq<Point>>)
    ensures |r| >= 1
  {
    Trace(segs).done + [Trace(segs).current]
  }

  /** All points of a list of subpaths, in order. */
  function Flatten(ss: seq<seq<Point>>): seq<Point> {
    if ss == [] then [] else Flatten(ss[..|ss| - 1]) + ss[|ss| - 1]
  }

  /** How many segments the loop acts on. */
  function DrawingCount(segs: seq<Segment>): nat {
    if segs == [] then 0
    else DrawingCount(segs[..|segs| - 1]) + (if Draws(segs[|segs| - 1].kind) then 1 else 0)
  }

  function MoveRelativeCount(segs: seq<Segment>): nat {
    if segs == [] then 0
    else MoveRelativeCount(segs[..|segs| - 1]) + (if segs[|segs| - 1].kind == 'm' then 1 else 0)
  }

  lemma FlattenAppend(ss: seq<seq<Point>>, s: seq<Point>)
    ensures Flatten(ss + [s]) == Flatten(ss) + s
  {
    assert (ss + [s])[..|ss|] == ss;
  }

  /** The points of a state's subpaths, the one in progress included. */
  function PointsOf(c: Cursor): nat {
    |Flatten(c.done + [c.current])|
  }

  lemma MoveToAddsOnePoint(c: Cursor, p: Point, flush: bool)
    requires flush || c.current == []
    ensures PointsOf(MoveTo(c, p, flush)) == PointsOf(c) + 1
  {
    FlattenAppend(c.done, c.current);
    FlattenAppend(c.done, [p]);
    FlattenAppend(c.done + [c.current], [p]);
  }

  lemma AppendAddsOnePoint(c: Cursor, p: Point)
    ensures PointsOf(c.(current := c.current + [p])) == PointsOf(c) + 1
    ensures PointsOf(LineTo(c, p)) == PointsOf(c) + 1
  {
    FlattenAppend(c.done, c.current);
    FlattenAppend(c.done, c.current + [p]);
  }

  /** A command the loop acts on adds one point to the state, any other none. */
  lemma StepAddsOnePoint(c: Cursor, s: Segment)
    ensures PointsOf(Step(c, s)) == PointsOf(c) + (if Draws(s.kind) then 1 else 0)
  {
    match s.kind
    case 'M' => MoveToAddsOnePoint(c, Point(Value(s, 0), Value(s, 1)), |c.current| > 0);
    case 'm' => MoveToAddsOnePoint(c, Point(Plus(c.last.x, Value(s, 0)), Plus(c.last.y, Value(s, 1))), true);
    case 'L' => AppendAddsOnePoint(c, Point(Value(s, 0), Value(s, 1)));
    case 'l' => AppendAddsOnePoint(c, Point(Plus(c.last.x, Value(s, 0)), Plus(c.last.y, Value(s, 1))));
    case 'H' => AppendAddsOnePoint(c, Point(Value(s, 0), c.last.y));
    case 'h' => AppendAddsOnePoint(c, Point(Plus(c.last.x, Value(s, 0)), c.last.y));
    case 'V' => AppendAddsOnePoint(c, Point(c.last.x, Value(s, 0)));
    case 'v' => AppendAddsOnePoint(c, Point(c.last.x, Plus(c.last.y, Value(s, 0))));
    case 'Z' => AppendAddsOnePoint(c, c.origin);
    case 'z' => AppendAddsOnePoint(c, c.origin);
    case _ =>
  }

  /** Each command the loop acts on contributes exactly one point, and nothing is lost. */
  lemma {:induction false} PointCount(segs: seq<Segment>)
    ensures |Flatten(Subpaths(segs))| == DrawingCount(segs)
  {
    if segs == [] {
      FlattenAppend([], []);
    } else {
      PointCount(segs[..|segs| - 1]);
      StepAddsOnePoint(Trace(segs[..|segs| - 1]), segs[|segs| - 1]);
    }
  }

  /** The loop state after one more command. */
  lemma TraceSnoc(segs: seq<Segment>, s: Segment)
    ensures Trace(segs + [s]) == Step(Trace(segs), s)
  {
    assert (segs + [s])[..|segs|] == segs;
  }

  /**
   * Without a relative moveto every flushed subpath has points: M never
   * flushes an empty one.
   */
  lemma {:induction false} FlushedNonEmpty(segs: seq<Segment>)
    requires MoveRelativeCount(segs) == 0
    ensures forall i :: 0 <= i < |Trace(segs).done| ==> |Trace(segs).done[i]| > 0
  {
    if segs != [] {
      FlushedNonEmpty(segs[..|segs| - 1]);
    }
  }

  /** A relative moveto at the very start flushes an empty subpath and starts from NaN. */
  lemma LeadingRelativeMove(dx: real, dy: real, x: real, y: real)
    ensures Subpaths([Segment('m', [dx, dy]), Segment('L', [x, y])])
         == [[], [Unset, Point(Real(x), Real(y))]]
  {
    var m, l := Segment('m', [dx, dy]), Segment('L', [x, y]);
    TraceSnoc([], m);
    assert [] + [m] == [m];
    assert Trace([m]) == Cursor([[]], [Unset], Unset, Unset);
    TraceSnoc([m], l);
    assert [m] + [l] == [m, l];
    var p := Point(Real(x), Real(y));
    assert [Unset] + [p] == [Unset, p];
    assert Trace([m, l]) == Cursor([[]], [Unset, p], Unset, p);
  }

  /** An absolute moveto at the very start flushes nothing. */
  lemma LeadingAbsoluteMove(x0: real, y0: real, x: real, y: real)
    ensures Subpaths([Segment('M', [x0, y0]), Segment('L', [x, y])])
         == [[Point(Real(x0), Real(y0)), Point(Real(x), Real(y))]]
  {
    var m, l := Segment('M', [x0, y0]), Segment('L', [x, y]);
    TraceSnoc([], m);
    assert [] + [m] == [m];
    var p0, p := Point(Real(x0), Real(y0)), Point(Real(x), Real(y));
    assert Trace([m]) == Cursor([], [p0], p0, p0);
    TraceSnoc([m], l);
    assert [m] + [l] == [m, l];
    assert [p0] + [p] == [p0, p];
    assert Trace([m, l]) == Cursor([], [p0, p], p0, p);
  }

  /**
   * Z leaves lastPoint where it was: a relative command after it is taken
   * from the point before the close, not from the subpath's start as in
   * section 8.3.3 of SVG 1.1.
   */
  lemma CloseKeepsLastPoint()
    ensures Subpaths([Segment('M', [0.0, 0.0]), Segment('L', [4.0, 0.0]), Segment('Z', []), Segment('l', [1.0, 1.0])])
         == [[Point(Real(0.0), Real(0.0)), Point(Real(4.0), Real(0.0)), Point(Real(0.0), Real(0.0)), Point(Real(5.0), Real(1.0))]]
  {
    var s0, s1, s2, s3 := Segment('M', [0.0, 0.0]), Segment('L', [4.0, 0.0]), Segment('Z', []), Segment('l', [1.0, 1.0]);
    var o, p := Point(Real(0.0), Real(0.0)), Point(Real(4.0), Real(0.0));
    TraceSnoc([], s0);
    assert [] + [s0] == [s0];
    assert Trace([s0]) == Cursor([], [o], o, o);
    TraceSnoc([s0], s1);
    assert [s0] + [s1] == [s0, s1];
    assert [o] + [p] == [o, p];
    assert Trace([s0, s1]) == Cursor([], [o, p], o, p);
    TraceSnoc([s0, s1], s2);
    assert [s0, s1] + [s2] == [s0, s1, s2];
    assert [o, p] + [o] == [o, p, o];
    assert Trace([s0, s1, s2]) == Cursor([], [o, p, o], o, p);
    TraceSnoc([s0, s1, s2], s3);
    assert [s0, s1, s2] + [s3] == [s0, s1, s2, s3];
    var q := Point(Real(5.0), Real(1.0));
    assert [o, p, o] + [q] == [o, p, o, q];
    assert Trace([s0, s1, s2, s3]) == Cursor([], [o, p, o, q], o, q);
  }

  /** From a known point, l (dx, dy) is L to lastPoint + (dx, dy). */
  lemma RelativeLineIsAbsolute(c: Cursor, dx: real, dy: real)
    requires c.last.x.Real? && c.last.y.Real?
    ensures Step(c, Segment('l', [dx, dy])) == Step(c, Segment('L', [c.last.x.value + dx, c.last.y.value + dy]))
  {
  }

  /** H and V are lines that keep one coordinate of lastPoint. */
  lemma AxisLinesAreLines(c: Cursor, v: real)
    ensures Step(c, Segment('H', [v])) == LineTo(c, Point(Real(v), c.last.y))
    ensures Step(c, Segment('V', [v])) == LineTo(c, Point(c.last.x, Real(v)))
    ensures c.last.x.Real? ==> Step(c, Segment('h', [v])) == Step(c, Segment('H', [c.last.x.value + v]))
    ensures c.last.y.Real? ==> Step(c, Segment('v', [v])) == Step(c, Segment('V', [c.last.y.value + v]))
  {
  }

  /**
   * m agrees with M at lastPoint + offset while a subpath is in progress, and
   * differs from it on an empty one, where it flushes an empty subpath.
   */
  lemma RelativeMoveFlushes(c: Cursor, dx: real, dy: real)
    requires c.last.x.Real? && c.last.y.Real?
    ensures |c.current| > 0 ==>
              Step(c, Segment('m', [dx, dy])) == Step(c, Segment('M', [c.last.x.value + dx, c.last.y.value + dy]))
    ensures c.current == [] ==>
              Step(c, Segment('m', [dx, dy])).done == c.done + [[]]
              && Step(c, Segment('M', [c.last.x.value + dx, c.last.y.value + dy])).done == c.done
  {
  }

  // ----- pathsFromSvg -----

  function TransformAll(ss: seq<seq<Point>>, t: Transform): (r: seq<Option<seq<Point>>>)
    ensures |r| == |ss|
    ensures forall k :: 0 <= k < |ss| ==> r[k] == ApplyTransform(ss[k], t)
  {
    seq(|ss|, k requires 0 <= k < |ss| => ApplyTransform(ss[k], t))
  }

  /** What `paths` holds after the element loop has run over es: every subpath, transformed. */
  function AllRaw(es: seq<PathElement>): seq<Option<seq<Point>>> {
    if es == [] then []
    else AllRaw(es[..|es| - 1]) + TransformAll(Subpaths(es[|es| - 1].segments), es[|es| - 1].transform)
  }

  /**
   * The final scaledPaths call (:100): an undefined entry (unsupported
   * transform) makes its `map` throw, which is None here.
   */
  function Finish(raw: seq<Option<seq<Point>>>, vb: ViewBox): (r: Option<seq<seq<Point>>>)
    requires vb.LongerSide() != 0.0
    ensures r.None? <==> HasUndefined(raw)
  {
    if forall k :: 0 <= k < |raw| ==> raw[k].Some?
    then Some(ScaledPaths(seq(|raw|, k requires 0 <= k < |raw| => raw[k].value), vb))
    else None
  }

  predicate HasUndefined(raw: seq<Option<seq<Point>>>) {
    exists k :: 0 <= k < |raw| && raw[k].None?
  }

  predicate HasUnsupported(es: seq<PathElement>) {
    exists i :: 0 <= i < |es| && es[i].transform.Unsupported?
  }

  lemma HasUndefinedAppend(a: seq<Option<seq<Point>>>, b: seq<Option<seq<Point>>>)
    ensures HasUndefined(a + b) <==> HasUndefined(a) || HasUndefined(b)
  {
    if HasUndefined(a + b) {
      var k :| 0 <= k < |a + b| && (a + b)[k].None?;
      if k >= |a| {
        assert b[k - |a|].None?;
      }
    }
    if HasUndefined(a) {
      var k :| 0 <= k < |a| && a[k].None?;
      assert (a + b)[k].None?;
    }
    if HasUndefined(b) {
      var k :| 0 <= k < |b| && b[k].None?;
      assert (a + b)[|a| + k].None?;
    }
  }

  lemma HasUnsupportedSnoc(es: seq<PathElement>)
    requires es != []
    ensures HasUnsupported(es) <==> HasUnsupported(es[..|es| - 1]) || es[|es| - 1].transform.Unsupported?
  {
    if HasUnsupported(es) {
      var i :| 0 <= i < |es| && es[i].transform.Unsupported?;
      if i < |es| - 1 {
        assert es[..|es| - 1][i] == es[i];
      }
    }
    if HasUnsupported(es[..|es| - 1]) {
      var i :| 0 <= i < |es| - 1 && es[..|es| - 1][i].transform.Unsupported?;
      assert es[i] == es[..|es| - 1][i];
    }
  }

  /** Every element contributes at least its final subpath, so one unsupported transform is enough to fail. */
  lemma {:induction false} AllRawFails(es: seq<PathElement>)
    ensures HasUndefined(AllRaw(es)) <==> HasUnsupported(es)
  {
    if es != [] {
      var init := es[..|es| - 1];
      var e := es[|es| - 1];
      AllRawFails(init);
      var b := TransformAll(Subpaths(e.segments), e.transform);
      HasUndefinedAppend(AllRaw(init), b);
      HasUnsupportedSnoc(es);
      assert HasUndefined(b) <==> e.transform.Unsupported? by {
        if e.transform.Unsupported? {
          assert b[0].None?;
        }
      }
    }
  }

  /**
   * The command loop of pathsFromSvg (:41-97) over one path element's
   * segments: every subpath it flushes is pushed, transformed, onto the
   * shared `paths`; the subpath still in progress is returned.
   */
  method TraceElement(paths0: seq<Option<seq<Point>>>, points: seq<Segment>, pathTransform: Transform)
    returns (paths: seq<Option<seq<Point>>>, absolutePoints: seq<Point>)
    ensures paths == paths0 + TransformAll(Trace(points).done, pathTransform)
    ensures absolutePoints == Trace(points).current
  {
    paths := paths0;
    absolutePoints := [];
    var originPoint := Unset;
    var lastPoint := Unset;
    for i := 0 to |points|
      invariant Trace(points[..i]).current == absolutePoints
      invariant Trace(points[..i]).origin == originPoint && Trace(points[..i]).last == lastPoint
      invariant paths == paths0 + TransformAll(Trace(points[..i]).done, pathTransform)
    {
      ghost var before := Trace(points[..i]);
      assert points[..i + 1][..i] == points[..i];
      var s := points[i];
      if s.kind == 'M' {
        if |absolutePoints| > 0 {
          paths := paths + [ApplyTransform(absolutePoints, pathTransform)];
          absolutePoints := [];
        }
        var p := Point(Value(s, 0), Value(s, 1));
        absolutePoints := absolutePoints + [p];
        originPoint := p;
        lastPoint := p;
      }
      if s.kind == 'm' {
        paths := paths + [ApplyTransform(absolutePoints, pathTransform)];
        absolutePoints := [];
        var p := Point(Plus(lastPoint.x, Value(s, 0)), Plus(lastPoint.y, Value(s, 1)));
        absolutePoints := absolutePoints + [p];
        originPoint := p;
        lastPoint := p;
      }
      if s.kind == 'L' {
        var p := Point(Value(s, 0), Value(s, 1));
        absolutePoints := absolutePoints + [p];
        lastPoint := p;
      }
      if s.kind == 'l' {
        var p := Point(Plus(lastPoint.x, Value(s, 0)), Plus(lastPoint.y, Value(s, 1)));
        absolutePoints := absolutePoints + [p];
        lastPoint := p;
      }
      if s.kind == 'H' {
        var p := Point(Value(s, 0), lastPoint.y);
        absolutePoints := absolutePoints + [p];
        lastPoint := p;
      }
      if s.kind == 'h' {
        var p := Point(Plus(lastPoint.x, Value(s, 0)), lastPoint.y);
        absolutePoints := absolutePoints + [p];
        lastPoint := p;
      }
      if s.kind == 'V' {
        var p := Point(lastPoint.x, Value(s, 0));
        absolutePoints := absolutePoints + [p];
        lastPoint := p;
      }
      if s.kind == 'v' {
        var p := Point(lastPoint.x, Plus(lastPoint.y, Value(s, 0)));
        absolutePoints := absolutePoints + [p];
        lastPoint := p;
      }
      if s.kind == 'Z' || s.kind == 'z' {
        absolutePoints := absolutePoints + [originPoint];
      }
      assert TransformAll(before.done + [before.current], pathTransform)
          == TransformAll(before.done, pathTransform) + [ApplyTransform(before.current, pathTransform)];
    }
    assert points[..|points|] == points;
  }

  /**
   * pathsFromSvg (:29-101) over parsed path elements: every subpath of every
   * element in document order, transformed, then scaled; no result when some
   * element has a transform other than translate.
   */
  method PathsFromSvg(elements: seq<PathElement>, viewBox: ViewBox) returns (r: Option<seq<seq<Point>>>)
    requires viewBox.LongerSide() != 0.0
    ensures r == Finish(AllRaw(elements), viewBox)
    ensures r.None? <==> HasUnsupported(elements)
  {
    var paths: seq<Option<seq<Point>>> := [];
    for a := 0 to |elements|
      invariant paths == AllRaw(elements[..a])
    {
      var points := elements[a].segments;
      var pathTransform := elements[a].transform;
      var absolutePoints;
      paths, absolutePoints := TraceElement(paths, points, pathTransform);
      assert elements[..a + 1][..a] == elements[..a];
      assert TransformAll(Trace(points).done + [Trace(points).current], pathTransform)
          == TransformAll(Trace(points).done, pathTransform) + [ApplyTransform(absolutePoints, pathTransform)];
      paths := paths + [ApplyTransform(absolutePoints, pathTransform)];
    }
    assert elements[..|elements|] == elements;
    AllRawFails(elements);
    r := Finish(paths, viewBox);
  }
}
