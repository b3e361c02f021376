/** The zigzag coverage path of scripts/demo2.py (lines 40-75). */
module Coverage {

  datatype Waypoint = Waypoint(x: real, y: real, z: real, rx: real, ry: real, rz: real)

  datatype Area = Area(width: real, height: real, spacing: real)

  predicate AreaOk(a: Area) {
    a.width >= 0.0 && a.height >= 0.0 && a.spacing > 0.0
  }

  /** int(box_height / line_spacing) + 1 */
  function NumLines(a: Area): (n: nat)
    requires AreaOk(a)
    ensures n >= 1
  {
    (a.height / a.spacing).Floor + 1
  }

  function StartX(center: Waypoint, a: Area): real {
    center.x - a.width / 2.0
  }

  function StartY(center: Waypoint, a: Area): real {
    center.y - a.height / 2.0
  }

  function LineY(center: Waypoint, a: Area, i: nat): real {
    StartY(center, a) + i as real * a.spacing
  }

  /** Left end of line i (right == false) or its right end. */
  function LineEnd(center: Waypoint, a: Area, i: nat, right: bool): Waypoint {
    center.(x := StartX(center, a) + (if right then a.width else 0.0), y := LineY(center, a, i))
  }

  /** The box is centred: its sides lie half its width and half its height from the centre. */
  lemma BoxCentred(center: Waypoint, a: Area)
    ensures StartX(center, a) + a.width - center.x == center.x - StartX(center, a) == a.width / 2.0
    ensures StartY(center, a) + a.height - center.y == center.y - StartY(center, a) == a.height / 2.0
  {
  }

  /** The path is line 0 left to right, line 1 right to left, and so on. */
  predicate IsZigzag(center: Waypoint, a: Area, path: seq<Waypoint>, lines: nat) {
    && |path| == 2 * lines
    && forall i :: 0 <= i < lines ==>
         path[2 * i] == LineEnd(center, a, i, i % 2 == 1) && path[2 * i + 1] == LineEnd(center, a, i, i % 2 == 0)
  }

  /** Lines 56-75. */
  method GeneratePath(center: Waypoint, a: Area) returns (path: seq<Waypoint>)
    requires AreaOk(a)
    ensures IsZigzag(center, a, path, NumLines(a))
  {
    var startX, startY := center.x - a.width / 2.0, center.y - a.height / 2.0;
    path := [];
    for i := 0 to NumLines(a)
      invariant IsZigzag(center, a, path, i)
    {
      var yOffset := i as real * a.spacing;
      var left := Waypoint(startX, startY + yOffset, center.z, center.rx, center.ry, center.rz);
      var right := Waypoint(startX + a.width, startY + yOffset, center.z, center.rx, center.ry, center.rz);
      ghost var before := path;
      if i % 2 == 0 {
        path := path + [left];
        path := path + [right];
      } else {
        path := path + [right];
        path := path + [left];
      }
      assert path[..2 * i] == before;
      forall j | 0 <= j < i
        ensures path[2 * j] == before[2 * j] && path[2 * j + 1] == before[2 * j + 1]
      {
      }
    }
  }

  lemma DivideBounds(h: real, s: real)
    requires s > 0.0
    ensures (h / s).Floor as real * s <= h < ((h / s).Floor + 1) as real * s
  {
    var f := (h / s).Floor;
    Between(f as real, h / s, (f + 1) as real, h, s);
  }

  lemma Between(f: real, q: real, g: real, h: real, s: real)
    requires s > 0.0 && f <= q < g && q * s == h
    ensures f * s <= h < g * s
  {
    ProductGrows(f, q, s);
    ProductGrowsStrictly(q, g, s);
  }

  lemma ProductGrows(a: real, b: real, s: real)
    requires a <= b && s >= 0.0
    ensures a * s <= b * s
  {
    assert (b - a) * s >= 0.0;
    assert b * s == a * s + (b - a) * s;
  }

  lemma ProductGrowsStrictly(a: real, b: real, s: real)
    requires a < b && s > 0.0
    ensures a * s < b * s
  {
    var d := b - a;
    assert d * s > 0.0;
    assert b * s == a * s + d * s;
  }

  lemma NextProduct(i: nat, s: real)
    ensures (i + 1) as real * s == i as real * s + s
  {
    assert (i + 1) as real == i as real + 1.0;
  }

  lemma WithinProduct(k: real, last: real, s: real, h: real)
    requires 0.0 <= k <= last && s > 0.0 && last * s <= h
    ensures 0.0 <= k * s <= h
  {
    ProductGrows(k, last, s);
    ProductGrows(0.0, k, s);
  }

  lemma LineInBox(center: Waypoint, a: Area, i: nat)
    requires AreaOk(a) && i < NumLines(a)
    ensures StartY(center, a) <= LineY(center, a, i) <= StartY(center, a) + a.height
  {
    var last := (a.height / a.spacing).Floor as real;
    DivideBounds(a.height, a.spacing);
    WithinProduct(i as real, last, a.spacing, a.height);
  }

  /** Every waypoint keeps the centre's height and orientation and lies in the box. */
  lemma PathStaysInBox(center: Waypoint, a: Area, path: seq<Waypoint>, k: nat)
    requires AreaOk(a) && IsZigzag(center, a, path, NumLines(a)) && k < |path|
    ensures var w := path[k];
            && w == center.(x := w.x, y := w.y)
            && (w.x == StartX(center, a) || w.x == StartX(center, a) + a.width)
            && StartY(center, a) <= w.y <= StartY(center, a) + a.height
  {
    var i := k / 2;
    assert path[2 * i].y == path[2 * i + 1].y == LineY(center, a, i);
    assert k == 2 * i || k == 2 * i + 1;
    LineInBox(center, a, i);
  }

  /** The path starts in the lower left corner of the box and goes right first. */
  lemma PathStartsLowerLeft(center: Waypoint, a: Area, path: seq<Waypoint>)
    requires AreaOk(a) && IsZigzag(center, a, path, NumLines(a))
    ensures |path| >= 2
    ensures path[0] == center.(x := center.x - a.width / 2.0, y := center.y - a.height / 2.0)
    ensures path[1] == center.(x := center.x + a.width / 2.0, y := center.y - a.height / 2.0)
  {
    assert path[2 * 0] == LineEnd(center, a, 0, false) && path[2 * 0 + 1] == LineEnd(center, a, 0, true);
  }

  /** Between waypoints the tool moves along one axis only: across the whole width at one y,
      then up by one spacing at one x. */
  lemma PathTurnsSquare(center: Waypoint, a: Area, path: seq<Waypoint>, k: nat)
    requires AreaOk(a) && IsZigzag(center, a, path, NumLines(a)) && k + 1 < |path|
    ensures if k % 2 == 0 then
              path[k + 1].y == path[k].y
              && (path[k + 1].x - path[k].x == a.width || path[k].x - path[k + 1].x == a.width)
            else path[k + 1].x == path[k].x && path[k + 1].y == path[k].y + a.spacing
  {
    var i := k / 2;
    assert path[2 * i + 1] == LineEnd(center, a, i, i % 2 == 0);
    if k % 2 == 0 {
      assert k == 2 * i && path[2 * i] == LineEnd(center, a, i, i % 2 == 1);
    } else {
      assert k + 1 == 2 * (i + 1) && path[2 * (i + 1)] == LineEnd(center, a, i + 1, (i + 1) % 2 == 1);
      NextProduct(i, a.spacing);
    }
  }

  /** Coverage: every height of the box is on a line or less than one spacing above one, and, below the
      last line, within half a spacing of a line. */
  lemma BoxCovered(center: Waypoint, a: Area, y: real) returns (i: nat, near: nat)
    requires AreaOk(a) && StartY(center, a) <= y <= StartY(center, a) + a.height
    ensures i < NumLines(a) && LineY(center, a, i) <= y < LineY(center, a, i) + a.spacing
    ensures near < NumLines(a)
    ensures y <= LineY(center, a, LastLine(a)) ==>
              -a.spacing / 2.0 <= y - LineY(center, a, near) <= a.spacing / 2.0
  {
    i := LineBelow(center, a, y);
    LineAbove(center, a, i);
    near := if y - LineY(center, a, i) > a.spacing / 2.0 && i + 1 < NumLines(a) then i + 1 else i;
  }

  lemma LineAbove(center: Waypoint, a: Area, i: nat)
    ensures LineY(center, a, i + 1) == LineY(center, a, i) + a.spacing
  {
    NextProduct(i, a.spacing);
  }

  lemma LineBelow(center: Waypoint, a: Area, y: real) returns (i: nat)
    requires AreaOk(a) && StartY(center, a) <= y <= StartY(center, a) + a.height
    ensures i < NumLines(a) && LineY(center, a, i) <= y < LineY(center, a, i) + a.spacing
  {
    var d := y - StartY(center, a);
    i := FloorOf(d, a.height, a.spacing);
    DivideBounds(d, a.spacing);
    NextProduct(i, a.spacing);
  }

  /** Height y is within half a spacing of a line. */
  ghost predicate NearLine(center: Waypoint, a: Area, y: real)
    requires AreaOk(a)
  {
    exists i: nat :: i < NumLines(a) && -a.spacing / 2.0 <= y - LineY(center, a, i) <= a.spacing / 2.0
  }

  function LastLine(a: Area): (i: nat)
    requires AreaOk(a)
    ensures i < NumLines(a)
  {
    NumLines(a) - 1
  }

  /** Below half a spacing over the last line every height is near a line. */
  lemma NearSome(center: Waypoint, a: Area, y: real)
    requires AreaOk(a) && StartY(center, a) <= y <= StartY(center, a) + a.height
    requires y - LineY(center, a, LastLine(a)) <= a.spacing / 2.0
    ensures NearLine(center, a, y)
  {
    var i, near := BoxCovered(center, a, y);
    var line := if y <= LineY(center, a, LastLine(a)) then near else LastLine(a);
    assert line < NumLines(a) && -a.spacing / 2.0 <= y - LineY(center, a, line) <= a.spacing / 2.0;
  }

  /** No line is above the last. */
  lemma LinesRise(center: Waypoint, a: Area, i: nat)
    requires AreaOk(a) && i < NumLines(a)
    ensures LineY(center, a, i) <= LineY(center, a, LastLine(a))
  {
    ProductGrows(i as real, LastLine(a) as real, a.spacing);
  }

  lemma NearMeansNarrow(center: Waypoint, a: Area, y: real)
    requires AreaOk(a) && NearLine(center, a, y)
    ensures y - LineY(center, a, LastLine(a)) <= a.spacing / 2.0
  {
    var i: nat :| i < NumLines(a) && -a.spacing / 2.0 <= y - LineY(center, a, i) <= a.spacing / 2.0;
    LinesRise(center, a, i);
  }

  /** Every height of the box is within half a spacing of a line if and only if the strip above the last line
      is at most half a spacing wide. */
  lemma BoxCoveredExactly(center: Waypoint, a: Area)
    requires AreaOk(a)
    ensures (forall y :: StartY(center, a) <= y <= StartY(center, a) + a.height ==> NearLine(center, a, y))
       <==> StartY(center, a) + a.height - LineY(center, a, LastLine(a)) <= a.spacing / 2.0
  {
    var top := StartY(center, a) + a.height;
    if NearLine(center, a, top) {
      NearMeansNarrow(center, a, top);
      forall y | StartY(center, a) <= y <= top ensures NearLine(center, a, y) {
        NearSome(center, a, y);
      }
    } else if top - LineY(center, a, LastLine(a)) <= a.spacing / 2.0 {
      NearSome(center, a, top);
    }
  }

  lemma FloorOf(d: real, h: real, s: real) returns (i: nat)
    requires 0.0 <= d <= h && s > 0.0
    ensures i == (d / s).Floor <= (h / s).Floor
  {
    var q, r := d / s, h / s;
    assert q * s == d && r * s == h;
    if q > r { ProductGrowsStrictly(r, q, s); }
    if q < 0.0 { ProductGrowsStrictly(q, 0.0, s); }
    i := q.Floor;
  }
}
