/** The editing rules of the path editor's 3D view. Each rule is a handler
    that reads the segment list once and then issues a fixed sequence of
    `updateSegment` calls. Every handler is a method that takes the store, and
    each one is proved equal to an `After...` function that gives the resulting
    segment list directly, index by index.

    `index` is the segment whose mesh, shape or centre the user acted on.
    Shapes and arc centres exist only for `index >= 1`, and the endpoint
    handlers exist for every index. */
module Editor {
  import opened Wrappers
  import opened Geometry
  import opened PathStore

  /** The y key of a stored centre: NaN where `calcCenter` left `y_f` undefined. */
  function YCoord(y: Option<real>): Coord
  {
    if y.Some? then Num(y.value) else NaN
  }

  /** A `Vector3` returned by `calcCenter`, stored as a segment's `center`. */
  function AsCenter(p: CenterPoint): Center
  {
    Obj(Num(p.x), YCoord(p.y), Num(p.z))
  }

  /** `{...prior, x: p.x, y: p.y}`: x and y replaced, z kept if there was one. */
  function WithXY(prior: Center, p: CenterPoint): (c: Center)
    ensures c.Obj? && c.x == Num(p.x) && c.y == YCoord(p.y)
    ensures c.z == (if prior.Obj? then prior.z else Missing)
  {
    match prior
    case Absent => Obj(Num(p.x), YCoord(p.y), Missing)
    case Obj(_, _, z) => Obj(Num(p.x), YCoord(p.y), z)
  }

  /** The empty object `{}` that turning an arc back into a line stores. */
  const EmptyCenter := Obj(Missing, Missing, Missing)

  function CommandDelta(c: Command): Delta { Delta(Some(c), None, None, None) }
  function TargetDelta(p: Point): Delta { Delta(None, Some(p), None, None) }
  function EditingDelta(b: bool): Delta { Delta(None, None, Some(b), None) }
  function CenterDelta(c: Center): Delta { Delta(None, None, None, Some(c)) }

  /** The `isCW` flag `DrawShape` passes to the arc curve: every command but
      G02 is drawn clockwise. */
  function IsClockwise(c: Command): bool
  {
    c != G02
  }

  // ---------------------------------------------------------------------
  // The Z handle of an endpoint

  /** `canEnableZ` of `SegmentMesh`: the segment's own shape or the next one
      is an arc. */
  function CanEnableZ(segs: seq<Segment>, index: int): bool
    requires 0 <= index < |segs|
  {
    segs[index].command != G01 || (index + 1 < |segs| && segs[index + 1].command != G01)
  }

  /** `showZ` of the endpoint gizmo: offered only to an endpoint being edited
      whose incoming shape is a line and whose outgoing shape, if any, is a
      line too. */
  function ShowZ(segs: seq<Segment>, index: int): (show: bool)
    requires 0 <= index < |segs|
    ensures show <==>
              segs[index].editing && segs[index].command == G01 &&
              (index + 1 == |segs| || segs[index + 1].command == G01)
  {
    segs[index].editing && !CanEnableZ(segs, index)
  }

  // ---------------------------------------------------------------------
  // Clicking an endpoint

  /** The list after a click on endpoint `index`: its `editing` flag flips. */
  function AfterClickSegment(segs: seq<Segment>, index: int): (r: seq<Segment>)
    requires 0 <= index < |segs|
    ensures |r| == |segs| && r[index].editing == !segs[index].editing
    ensures r[index] == segs[index].(editing := r[index].editing)
    ensures forall j :: 0 <= j < |segs| && j != index ==> r[j] == segs[j]
  {
    segs[index := segs[index].(editing := !segs[index].editing)]
  }

  /** The click handler of the endpoint mesh. */
  method ClickSegment(store: Store, index: int)
    requires 0 <= index < |store.segments|
    modifies store
    ensures store.segments == AfterClickSegment(old(store.segments), index)
  {
    var segment := store.segments[index];
    store.UpdateSegment(index, EditingDelta(!segment.editing));
  }

  // ---------------------------------------------------------------------
  // Toggling a shape between line and arc

  /** The condition `transformShape` checks before it changes anything: the
      shape's endpoint is being edited and both chord ends share z. */
  predicate CanToggle(segs: seq<Segment>, index: int)
    requires 1 <= index < |segs|
  {
    segs[index].editing && segs[index].target.z == segs[index - 1].target.z
  }

  /** The list after a click on shape `index`: when it may toggle, a line
      becomes a G02 arc centred by `calcCenter(cur, prev, 0, 1)`, and either
      arc becomes a line with the centre `{}`; otherwise nothing changes. */
  function AfterTransformShape(segs: seq<Segment>, index: int): (r: seq<Segment>)
    requires 1 <= index < |segs|
    ensures |r| == |segs|
    ensures forall j :: 0 <= j < |segs| && j != index ==> r[j] == segs[j]
    ensures !CanToggle(segs, index) ==> r == segs
    ensures CanToggle(segs, index) ==>
              r[index].target == segs[index].target && r[index].editing == segs[index].editing &&
              (r[index].command == G01 <==> segs[index].command != G01)
    ensures CanToggle(segs, index) && segs[index].command == G01 ==> r[index].command == G02
    ensures CanToggle(segs, index) && segs[index].command != G01 ==>
              r[index] == segs[index].(command := G01, center := EmptyCenter)
  {
    var seg, prev := segs[index], segs[index - 1];
    if !CanToggle(segs, index) then segs
    else if seg.command == G01 then
      segs[index := seg.(command := G02, center := AsCenter(ChordMidCenter(seg.target, prev.target)))]
    else
      segs[index := seg.(command := G01, center := EmptyCenter)]
  }

  /** `transformShape(index, segment)` of `DrawShape`: one `updateSegment`
      with the whole modified record. */
  method TransformShape(store: Store, index: int)
    requires 1 <= index < |store.segments|
    modifies store
    ensures store.segments == AfterTransformShape(old(store.segments), index)
  {
    var segments := store.segments;
    var start, end := segments[index], segments[index - 1];
    if start.editing && start.target.z == end.target.z {
      var newSegment := start;
      if newSegment.command == G01 {
        var center := ChordMidCenter(start.target, end.target);
        newSegment := newSegment.(command := G02, center := AsCenter(center));
      } else if newSegment.command == G02 || newSegment.command == G03 {
        newSegment := newSegment.(command := G01, center := EmptyCenter);
      }
      store.UpdateSegment(index, Spread(newSegment));
    }
  }

  /** Toggling twice is not the identity on records: a line comes back as a
      line whose centre is `{}` (a fresh segment has none), and a G03 arc
      comes back as G02. */
  lemma ToggleTwice(segs: seq<Segment>, index: int)
    requires 1 <= index < |segs| && CanToggle(segs, index)
    ensures var r := AfterTransformShape(AfterTransformShape(segs, index), index);
            r[index].command == (if segs[index].command == G01 then G01 else G02) &&
            (segs[index].command == G01 ==> r[index].center == EmptyCenter) &&
            r[index].target == segs[index].target
  {
    var once := AfterTransformShape(segs, index);
    assert CanToggle(once, index);
  }

  /** A line toggled to an arc gets the chord midpoint as centre, with a NaN y
      when the chord is horizontal or vertical. */
  lemma ToggleToArcCenter(segs: seq<Segment>, index: int)
    requires 1 <= index < |segs| && CanToggle(segs, index) && segs[index].command == G01
    ensures var r := AfterTransformShape(segs, index);
            var s, e := segs[index].target, segs[index - 1].target;
            var m := Midpoint(s, e);
            r[index].command == G02 &&
            r[index].center == Obj(Num(m.x), if s.x != e.x && s.y != e.y then Num(m.y) else NaN, Num(m.z))
  {
  }

  // ---------------------------------------------------------------------
  // Double-clicking an arc centre

  /** The list after a double click on the centre of arc `index`: G02 becomes
      G03 and anything else becomes G02. */
  function AfterDoubleClickCenter(segs: seq<Segment>, index: int): (r: seq<Segment>)
    requires 1 <= index < |segs|
    ensures |r| == |segs|
    ensures forall j :: 0 <= j < |segs| && j != index ==> r[j] == segs[j]
    ensures r[index] == segs[index].(command := r[index].command)
  {
    segs[index := segs[index].(command := if segs[index].command == G02 then G03 else G02)]
  }

  /** The double-click handler of `CenterMesh`. */
  method DoubleClickCenter(store: Store, index: int)
    requires 1 <= index < |store.segments|
    modifies store
    ensures store.segments == AfterDoubleClickCenter(old(store.segments), index)
  {
    var segments := store.segments;
    store.UpdateSegment(index, CommandDelta(if segments[index].command == G02 then G03 else G02));
  }

  /** On an arc, the double click swaps G02 and G03, reverses the drawing
      direction, and undoes itself. */
  lemma DoubleClickInvolution(segs: seq<Segment>, index: int)
    requires 1 <= index < |segs| && segs[index].command != G01
    ensures var r := AfterDoubleClickCenter(segs, index);
            r[index].command != G01 && r[index].command != segs[index].command &&
            IsClockwise(r[index].command) == !IsClockwise(segs[index].command) &&
            AfterDoubleClickCenter(r, index) == segs
  {
  }

  // ---------------------------------------------------------------------
  // Releasing a dragged endpoint

  /** The segment list after a handler, and whether the handler stopped with a
      JavaScript `TypeError` after its first updates. */
  datatype DragOutcome = DragOutcome(segments: seq<Segment>, threw: bool)

  /** The endpoint drag reads `segments[index - 1]` for an arc at index 0,
      which does not exist. */
  predicate DragThrows(segs: seq<Segment>, index: int)
    requires 0 <= index < |segs|
  {
    index == 0 && segs[0].command != G01
  }

  /** The list after endpoint `index` is released at `current`: its target is
      `current`, its `editing` flag flips when the press was a click, and the
      centres of the arcs ending and starting there are reset to the midpoints
      of their new chords (x and y only). */
  function AfterSegmentDragEnd(segs: seq<Segment>, index: int, current: Point, clicked: bool): (r: DragOutcome)
    requires 0 <= index < |segs|
    ensures |r.segments| == |segs|
    ensures r.threw <==> DragThrows(segs, index)
    ensures forall j :: 0 <= j < |segs| && j != index && j != index + 1 ==> r.segments[j] == segs[j]
    ensures r.segments[index].target == current && r.segments[index].command == segs[index].command
    ensures r.segments[index].editing == (segs[index].editing != clicked)
    ensures index + 1 < |segs| ==>
              r.segments[index + 1] == segs[index + 1].(center := r.segments[index + 1].center)
  {
    var seg := segs[index];
    var threw := DragThrows(segs, index);
    var here := seg.(
      target := current,
      editing := if clicked then !seg.editing else seg.editing,
      center :=
        if seg.command != G01 && !threw
        then WithXY(seg.center, ChordMidCenter(current, segs[index - 1].target))
        else seg.center);
    var moved := segs[index := here];
    if !threw && index + 1 < |segs| && segs[index + 1].command != G01 then
      var next := segs[index + 1];
      DragOutcome(moved[index + 1 := next.(center := WithXY(next.center, ChordMidCenter(next.target, current)))], false)
    else
      DragOutcome(moved, threw)
  }

  /** The `dragging-changed` callback of `SegmentMesh` when the drag ends:
      the target, then the `editing` flag, then the centre of this arc and of
      the next one, each by its own `updateSegment`. `threw` reports the
      `TypeError` raised for an arc at index 0, after the first updates. */
  method SegmentDragEnd(store: Store, index: int, current: Point, clicked: bool) returns (threw: bool)
    requires 0 <= index < |store.segments|
    modifies store
    ensures store.segments == AfterSegmentDragEnd(old(store.segments), index, current, clicked).segments
    ensures threw == AfterSegmentDragEnd(old(store.segments), index, current, clicked).threw
  {
    var segments := store.segments;
    var segment := segments[index];
    store.UpdateSegment(index, TargetDelta(current));
    if clicked {
      store.UpdateSegment(index, EditingDelta(!segment.editing));
    }
    threw := false;
    if segment.command != G01 {
      if index == 0 {
        threw := true;
        return;
      }
      var center := ChordMidCenter(current, segments[index - 1].target);
      store.UpdateSegment(index, CenterDelta(WithXY(segment.center, center)));
    }
    if index + 1 < |segments| && segments[index + 1].command != G01 {
      var center := ChordMidCenter(segments[index + 1].target, current);
      store.UpdateSegment(index + 1, CenterDelta(WithXY(segments[index + 1].center, center)));
    }
  }

  /** After an endpoint drag, each adjacent arc's centre is the midpoint of
      its new chord in x and y (y is NaN on a horizontal or vertical chord)
      and keeps its previous z; lines keep their centre. */
  lemma DragEndRecentresArcs(segs: seq<Segment>, index: int, current: Point, clicked: bool)
    requires 0 <= index < |segs| && !DragThrows(segs, index)
    ensures var r := AfterSegmentDragEnd(segs, index, current, clicked).segments;
            (segs[index].command != G01 ==>
               var m := Midpoint(current, segs[index - 1].target);
               r[index].center.Obj? && r[index].center.x == Num(m.x) &&
               r[index].center.y ==
                 (if current.x != segs[index - 1].target.x && current.y != segs[index - 1].target.y
                  then Num(m.y) else NaN) &&
               r[index].center.z == (if segs[index].center.Obj? then segs[index].center.z else Missing)) &&
            (segs[index].command == G01 ==> r[index].center == segs[index].center)
    ensures var r := AfterSegmentDragEnd(segs, index, current, clicked).segments;
            index + 1 < |segs| ==>
              (segs[index + 1].command != G01 ==>
                 var m := Midpoint(segs[index + 1].target, current);
                 r[index + 1].center.Obj? && r[index + 1].center.x == Num(m.x) &&
                 r[index + 1].center.y ==
                   (if segs[index + 1].target.x != current.x && segs[index + 1].target.y != current.y
                    then Num(m.y) else NaN) &&
                 r[index + 1].center.z ==
                   (if segs[index + 1].center.Obj? then segs[index + 1].center.z else Missing)) &&
              (segs[index + 1].command == G01 ==> r[index + 1] == segs[index + 1])
  {
  }

  /** When the Z handle is offered, no arc touches the endpoint, so releasing
      it changes no centre: only the target and the `editing` flag. */
  lemma ZHandleLeavesCentres(segs: seq<Segment>, index: int, current: Point, clicked: bool)
    requires 0 <= index < |segs| && ShowZ(segs, index)
    ensures var r := AfterSegmentDragEnd(segs, index, current, clicked);
            !r.threw &&
            r.segments == segs[index := segs[index].(target := current, editing := r.segments[index].editing)]
  {
  }

  // ---------------------------------------------------------------------
  // Releasing a dragged arc centre

  /** The list after the centre of arc `index` is released at `current`: the
      centre snaps to `calcCenter(start, end, dis, x_f)` and only its x and y
      are stored. */
  function AfterCenterDragEnd(segs: seq<Segment>, index: int, current: Point,
                              dis: real, cosine: real, root: real): (r: seq<Segment>)
    requires 1 <= index < |segs|
    requires IsDistance(dis, current, Midpoint(segs[index].target, segs[index - 1].target))
    requires -1.0 <= cosine <= 1.0
    requires IsSqrt(root, dis * dis - (dis * cosine) * (dis * cosine))
    ensures |r| == |segs|
    ensures forall j :: 0 <= j < |segs| && j != index ==> r[j] == segs[j]
    ensures r[index] == segs[index].(center := r[index].center)
  {
    var seg := segs[index];
    var snapped := SnapCenter(seg.target, segs[index - 1].target, current, dis, cosine, root);
    segs[index := seg.(center := WithXY(seg.center, snapped))]
  }

  /** The `dragging-changed` callback of `CenterMesh` when the drag ends.
      `dis` stands for `current.distanceTo(center)`, `cosine` and `root` for
      the cosine and square root `calcCenter` computes. */
  method CenterDragEnd(store: Store, index: int, current: Point, dis: real, cosine: real, root: real)
    requires 1 <= index < |store.segments|
    requires IsDistance(dis, current, Midpoint(store.segments[index].target, store.segments[index - 1].target))
    requires -1.0 <= cosine <= 1.0
    requires IsSqrt(root, dis * dis - (dis * cosine) * (dis * cosine))
    modifies store
    ensures store.segments == AfterCenterDragEnd(old(store.segments), index, current, dis, cosine, root)
  {
    var segments := store.segments;
    var start, end := segments[index].target, segments[index - 1].target;
    var center := Midpoint(start, end);
    var xf := if current.x > center.x then 1.0 else -1.0;
    var arcCenter := CalcCenter(start, end, dis, xf, cosine, root);
    var point := segments[index].center;
    store.UpdateSegment(index, CenterDelta(WithXY(point, arcCenter)));
  }
}
