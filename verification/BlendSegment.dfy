/** Blending segments: the posb objects of DR_common2.py (lines 126-203) and their packing for MoveBlending in
    DSR_ROBOT2.py (lines 574-594, 3357-3381), in the record layout of dsr_robot.cpp (lines 547-559). */
module BlendSegment {
  import opened Wrappers

  const POINT_COUNT := 6
  const LINE := 0
  const CIRCLE := 1

  datatype Fault = TypeFault | ValueFault

  type Checked<+T> = Result<T, Fault>

  /** A pose argument: a posx or a list of numbers, nothing, or something else. */
  datatype PosArg = NoPos | Numbers(items: seq<real>) | OtherPos

  /** The value of a posb. */
  datatype Segment = Segment(segType: int, pos1: seq<real>, pos2: Option<seq<real>>, radius: real)

  predicate ValidSegment(s: Segment) {
    && |s.pos1| == POINT_COUNT && s.radius >= 0.0
    && (s.segType == LINE || s.segType == CIRCLE)
    && (s.segType == CIRCLE <==> s.pos2.Some?)
    && (s.pos2.Some? ==> |s.pos2.value| == POINT_COUNT)
  }

  /** get_posx, lines 239-249. */
  function GetPosx(p: PosArg): Checked<seq<real>> {
    if p.Numbers? && |p.items| == POINT_COUNT then Ok(p.items) else Err(TypeFault)
  }

  /** posb.__init__, lines 140-171: the segment it makes, or the error it raises. */
  function MakeSegment(segType: Option<int>, pos1: PosArg, pos2: PosArg, radius: Option<real>): Checked<Segment> {
    if segType == None then Err(TypeFault)
    else if segType.value != LINE && segType.value != CIRCLE then Err(ValueFault)
    else if GetPosx(pos1).Err? then Err(TypeFault)
    else if segType.value == LINE && pos2 != NoPos then Err(ValueFault)
    else if segType.value == CIRCLE && pos2 == NoPos then Err(ValueFault)
    else if segType.value == CIRCLE && GetPosx(pos2).Err? then Err(TypeFault)
    else if radius == None then Err(TypeFault)
    else if radius.value < 0.0 then Err(ValueFault)
    else Ok(Segment(segType.value, GetPosx(pos1).value,
                      if segType.value == CIRCLE then Some(GetPosx(pos2).value) else None, radius.value))
  }

  /** A posb is always a valid segment, and every valid segment can be made. */
  lemma SegmentsMadeAreTheValidOnes(s: Segment)
    ensures ValidSegment(s) <==> exists segType, pos1, pos2, radius :: MakeSegment(segType, pos1, pos2, radius) == Ok(s)
  {
    if ValidSegment(s) {
      var pos2 := if s.pos2.Some? then Numbers(s.pos2.value) else NoPos;
      assert MakeSegment(Some(s.segType), Numbers(s.pos1), pos2, Some(s.radius)) == Ok(s);
    }
  }

  predicate SixNumbers(p: PosArg) {
    p.Numbers? && |p.items| == 6
  }

  /** A segment is made if and only if its type is known, the first point has six numbers, a line has no second
      point and a circle one of six numbers, and the radius is a number not below 0; and it holds exactly the arguments,
      each in its place. A type error means that an argument is not of its type, a value error that one is out of range
      or that a second point is missing or too many. */
  lemma MakeSegmentExactly(segType: Option<int>, pos1: PosArg, pos2: PosArg, radius: Option<real>)
    ensures var r := MakeSegment(segType, pos1, pos2, radius);
            && (r.Ok? <==>
                  && (segType == Some(LINE) || segType == Some(CIRCLE))
                  && SixNumbers(pos1) && (if segType == Some(LINE) then pos2 == NoPos else SixNumbers(pos2))
                  && radius.Some? && radius.value >= 0.0)
            && (r.Ok? ==>
                  && Some(r.value.segType) == segType && Numbers(r.value.pos1) == pos1
                  && Some(r.value.radius) == radius
                  && pos2 == if r.value.pos2.Some? then Numbers(r.value.pos2.value) else NoPos)
            && (r == Err(TypeFault) ==>
                  || segType == None || radius == None || !SixNumbers(pos1) || (pos2 != NoPos && !SixNumbers(pos2)))
            && (r == Err(ValueFault) ==>
                  || (segType.Some? && segType != Some(LINE) && segType != Some(CIRCLE))
                  || (segType == Some(LINE) && pos2 != NoPos) || (segType == Some(CIRCLE) && pos2 == NoPos)
                  || (radius.Some? && radius.value < 0.0))
  {
  }

  function ZeroPoint(): (z: seq<real>)
    ensures |z| == POINT_COUNT && forall i :: 0 <= i < POINT_COUNT ==> z[i] == 0.0
  {
    seq(POINT_COUNT, _ => 0.0)
  }

  /** [pos1] + [pos2] + [type] + [radius], an absent pos2 as zeros. */
  function Pack(s: Segment): seq<real> {
    s.pos1 + (if s.pos2.Some? then s.pos2.value else ZeroPoint()) + [s.segType as real] + [s.radius]
  }

  function PackAll(segments: seq<Segment>): (records: seq<seq<real>>)
    ensures |records| == |segments| && forall i :: 0 <= i < |segments| ==> records[i] == Pack(segments[i])
  {
    seq(|segments|, i requires 0 <= i < |segments| => Pack(segments[i]))
  }

  /** Reading a record by the C++ layout. */
  function Unpack(record: seq<real>): (s: Segment)
    requires |record| == 14
  {
    var pos2 := if record[12] == CIRCLE as real then Some(record[6..12]) else None;
    Segment(record[12].Floor, record[..6], pos2, record[13])
  }

  /** The C++ packer of dsr_robot.cpp: six and six coordinates, blend type, blend radius. */
  method CppPack(pos: seq<seq<real>>, blendType: int, blendRad: real) returns (data: seq<real>)
    requires |pos| == 2 && |pos[0]| == 6 && |pos[1]| == 6
    ensures data == pos[0] + pos[1] + [blendType as real, blendRad]
  {
    data := [];
    for j := 0 to 6
      invariant data == pos[0][..j]
    {
      data := data + [pos[0][j]];
    }
    for j := 0 to 6
      invariant data == pos[0] + pos[1][..j]
    {
      data := data + [pos[1][j]];
    }
    data := data + [blendType as real];
    data := data + [blendRad];
  }

  /** Packing loses nothing: each record has 14 numbers in the C++ order and reads back as its segment,
      the absent second point of a line included. */
  lemma PackRoundTrip(s: Segment)
    requires ValidSegment(s)
    ensures |Pack(s)| == 14 && Unpack(Pack(s)) == s
    ensures Pack(s) == s.pos1 + (if s.pos2.Some? then s.pos2.value else ZeroPoint()) + [s.segType as real, s.radius]
  {
    var r, second := Pack(s), if s.pos2.Some? then s.pos2.value else ZeroPoint();
    assert r[..6] == s.pos1 && r[6..12] == second;
    assert (s.segType as real).Floor == s.segType;
  }

  /* ---- The objects ---- */

  datatype Item = NoneItem | IntItem(i: int) | NumItem(x: real) | PointItem(p: seq<real>)

  class Posb {
    var segType: int
    var posx1: seq<real>
    var posx2: Option<seq<real>>
    var radius: real

    function Value(): Segment
      reads this
    {
      Segment(segType, posx1, posx2, radius)
    }

    constructor (s: Segment)
      ensures Value() == s
    {
      segType, posx1, posx2, radius := s.segType, s.pos1, s.pos2, s.radius;
    }

    /** to_list: a new list each time. */
    method ToList() returns (l: array<Item>)
      ensures fresh(l)
      ensures l[..] == [IntItem(segType), PointItem(posx1),
                        if posx2 == None then NoneItem else PointItem(posx2.value), NumItem(radius)]
    {
      l := new Item[4](_ => NoneItem);
      l[0] := IntItem(segType);
      l[1] := PointItem(posx1);
      if posx2 != None { l[2] := PointItem(posx2.value); }
      l[3] := NumItem(radius);
    }
  }

  /** posb(...) */
  method CreatePosb(segType: Option<int>, pos1: PosArg, pos2: PosArg, radius: Option<real>)
    returns (p: Posb?, r: Checked<Segment>)
    ensures r == MakeSegment(segType, pos1, pos2, radius)
    ensures r.Ok? <==> p != null
    ensures p != null ==> fresh(p) && p.Value() == r.value && ValidSegment(r.value)
  {
    r := MakeSegment(segType, pos1, pos2, radius);
    p := null;
    if r.Ok? {
      p := new Posb(r.value);
    }
  }

  function PointOf(i: Item): seq<real> {
    if i.PointItem? then i.p else []
  }

  function NumberOf(i: Item): real {
    match i case IntItem(n) => n as real case NumItem(x) => x case _ => 0.0
  }

  /** Lines 3357-3381: None items are overwritten in the fresh list, then the parts are joined. No posb changes. */
  method PackSegments(segments: seq<Posb>) returns (records: seq<seq<real>>)
    ensures |records| == |segments|
    ensures forall i :: 0 <= i < |segments| ==> records[i] == Pack(segments[i].Value())
  {
    records := [];
    for s := 0 to |segments|
      invariant |records| == s
      invariant forall i :: 0 <= i < s ==> records[i] == Pack(segments[i].Value())
    {
      var l := segments[s].ToList();
      ghost var given := l[..];
      for e := 0 to l.Length
        invariant forall j :: 0 <= j < 4 ==>
                    l[j] == if j < e && given[j] == NoneItem then PointItem(ZeroPoint()) else given[j]
      {
        if l[e] == NoneItem {
          l[e] := PointItem(seq(6, _ => 0.0));
        }
      }
      assert l[0] == given[0] && l[1] == given[1] && l[3] == given[3];
      var record := PointOf(l[1]) + PointOf(l[2]) + [NumberOf(l[0])] + [NumberOf(l[3])];
      records := records + [record];
    }
  }

  datatype Float64MultiArray = Float64MultiArray(data: seq<real>)

  /** _ros_listToFloat64MultiArray, lines 574-585. */
  method ListToMultiArray(src: seq<seq<real>>) returns (res: seq<Float64MultiArray>)
    ensures |res| == |src| && forall i :: 0 <= i < |src| ==> res[i].data == src[i]
  {
    res := [];
    for i := 0 to |src|
      invariant |res| == i && forall j :: 0 <= j < i ==> res[j].data == src[j]
    {
      res := res + [Float64MultiArray(src[i])];
    }
  }

  /** _ros_Float64MultiArrayTolist, lines 588-594. */
  method MultiArrayToList(arrays: seq<Float64MultiArray>) returns (res: seq<seq<real>>)
    ensures |res| == |arrays| && forall i :: 0 <= i < |arrays| ==> res[i] == arrays[i].data
  {
    res := [];
    for i := 0 to |arrays|
      invariant |res| == i && forall j :: 0 <= j < i ==> res[j] == arrays[j].data
    {
      res := res + [arrays[i].data];
    }
  }

  /** From objects to message and back: every segment is recovered, and no posb is modified. */
  method SendAndReadBack(segments: seq<Posb>) returns (back: seq<Segment>)
    requires forall i :: 0 <= i < |segments| ==> ValidSegment(segments[i].Value())
    ensures |back| == |segments| && forall i :: 0 <= i < |segments| ==> back[i] == segments[i].Value()
  {
    var records := PackSegments(segments);
    var message := ListToMultiArray(records);
    var lists := MultiArrayToList(message);
    back := [];
    for i := 0 to |lists|
      invariant |back| == i && forall j :: 0 <= j < i ==> back[j] == segments[j].Value()
    {
      PackRoundTrip(segments[i].Value());
      back := back + [Unpack(lists[i])];
    }
  }
}
