/** What the editor keeps true of the segment list across every event the UI
    can deliver: the first segment is a line, and every arc lies in the plane
    of its chord with a centre that, whenever its y is a number, lies on the
    perpendicular bisector of the chord in the x/y plane. */
module EditorInvariants {
  import opened Wrappers
  import opened Geometry
  import opened PathStore
  import opened Editor

  /** The arc from `prev` to `target` with centre `c`: planar chord, a centre
      with numeric x, a y that is a number or NaN, and the chord's z; when y is
      a number the centre is equally far from both chord ends. */
  predicate ArcOk(target: Point, prev: Point, c: Center)
  {
    target.z == prev.z &&
    c.Obj? && c.x.Num? && c.y != Missing && c.z == Num(target.z) &&
    (c.y.Num? ==> SqDistXY(c.x.v, c.y.v, target) == SqDistXY(c.x.v, c.y.v, prev))
  }

  predicate WellFormed(segs: seq<Segment>)
  {
    (|segs| > 0 ==> segs[0].command == G01) &&
    forall i :: 1 <= i < |segs| && segs[i].command != G01 ==>
      ArcOk(segs[i].target, segs[i - 1].target, segs[i].center)
  }

  /** The chord midpoint is equally far from both chord ends. */
  lemma MidpointEquidistant(a: Point, b: Point)
    ensures var m := Midpoint(a, b);
            SqDistXY(m.x, m.y, a) == SqDistXY(m.x, m.y, b)
  {
    var m := Midpoint(a, b);
    PerpendicularIsEquidistant(m.x, m.y, a, b, m.x, m.y, 0.0, 0.0);
  }

  /** A centre reset to the midpoint of a planar chord keeps the arc well formed. */
  lemma MidCenterOk(target: Point, prev: Point, old_: Center)
    requires target.z == prev.z
    requires old_.Obj? && old_.z == Num(target.z)
    ensures ArcOk(target, prev, WithXY(old_, ChordMidCenter(target, prev)))
  {
    MidpointEquidistant(target, prev);
  }

  /** The empty list is well formed. */
  lemma EmptyWellFormed()
    ensures WellFormed([])
  {
  }

  // ---------------------------------------------------------------------
  // Events

  /** Everything the user can do to the path. */
  datatype Event =
    | AddSegment
    | ClickEndpoint(index: int)
    | ToggleShape(index: int)
    | DoubleClickArcCentre(index: int)
    | DragEndpoint(index: int, current: Point, clicked: bool)
    | DragArcCentre(index: int, current: Point, dis: real, cosine: real, root: real)

  /** When the UI can deliver `e`. Shapes exist from index 1 on; an arc
      centre's handle exists only for an arc whose endpoint is being edited;
      a dragged endpoint keeps its z unless the Z handle is shown; `dis`,
      `cosine` and `root` are the distance, cosine and square root the centre
      drag computes. */
  predicate Enabled(segs: seq<Segment>, e: Event)
  {
    match e
    case AddSegment => true
    case ClickEndpoint(i) => 0 <= i < |segs|
    case ToggleShape(i) => 1 <= i < |segs|
    case DoubleClickArcCentre(i) => 1 <= i < |segs| && segs[i].command != G01 && segs[i].editing
    case DragEndpoint(i, current, _) =>
      0 <= i < |segs| && (current.z == segs[i].target.z || ShowZ(segs, i))
    case DragArcCentre(i, current, dis, cosine, root) =>
      1 <= i < |segs| && segs[i].command != G01 && segs[i].editing &&
      var m := Midpoint(segs[i].target, segs[i - 1].target);
      IsDistance(dis, current, m) && ExactCosine(cosine, segs[i].target, m) &&
      IsSqrt(root, dis * dis - (dis * cosine) * (dis * cosine))
  }

  /** The segment list after event `e`. */
  function Step(segs: seq<Segment>, e: Event): seq<Segment>
    requires Enabled(segs, e)
  {
    match e
    case AddSegment => segs + [DefaultSegment]
    case ClickEndpoint(i) => AfterClickSegment(segs, i)
    case ToggleShape(i) => AfterTransformShape(segs, i)
    case DoubleClickArcCentre(i) => AfterDoubleClickCenter(segs, i)
    case DragEndpoint(i, current, clicked) => AfterSegmentDragEnd(segs, i, current, clicked).segments
    case DragArcCentre(i, current, dis, cosine, root) => AfterCenterDragEnd(segs, i, current, dis, cosine, root)
  }

  /** Delivers `e` to its handler. */
  method Dispatch(store: Store, e: Event) returns (threw: bool)
    requires Enabled(store.segments, e)
    modifies store
    ensures store.segments == Step(old(store.segments), e)
    ensures threw ==> e.DragEndpoint? && DragThrows(old(store.segments), e.index)
  {
    ghost var segs := store.segments;
    threw := false;
    match e
    case AddSegment => store.CreateSegment(|store.segments|, Delta(None, None, None, None));
    case ClickEndpoint(i) => ClickSegment(store, i);
    case ToggleShape(i) => TransformShape(store, i);
    case DoubleClickArcCentre(i) => DoubleClickCenter(store, i);
    case DragEndpoint(i, current, clicked) =>
      threw := SegmentDragEnd(store, i, current, clicked);
      assert Step(segs, e) == AfterSegmentDragEnd(segs, i, current, clicked).segments;
    case DragArcCentre(i, current, dis, cosine, root) => CenterDragEnd(store, i, current, dis, cosine, root);
  }

  // ---------------------------------------------------------------------
  // Preservation, one event at a time

  lemma AddPreserves(segs: seq<Segment>)
    requires WellFormed(segs)
    ensures WellFormed(segs + [DefaultSegment])
  {
    var r := segs + [DefaultSegment];
    forall i | 1 <= i < |r| && r[i].command != G01
      ensures ArcOk(r[i].target, r[i - 1].target, r[i].center)
    {
      assert i < |segs| && r[i] == segs[i] && r[i - 1] == segs[i - 1];
    }
  }

  lemma ClickPreserves(segs: seq<Segment>, index: int)
    requires WellFormed(segs) && 0 <= index < |segs|
    ensures WellFormed(AfterClickSegment(segs, index))
  {
    var r := AfterClickSegment(segs, index);
    forall i | 1 <= i < |r| && r[i].command != G01
      ensures ArcOk(r[i].target, r[i - 1].target, r[i].center)
    {
      assert r[i].target == segs[i].target && r[i].center == segs[i].center;
      assert r[i - 1].target == segs[i - 1].target;
    }
  }

  lemma TogglePreserves(segs: seq<Segment>, index: int)
    requires WellFormed(segs) && 1 <= index < |segs|
    ensures WellFormed(AfterTransformShape(segs, index))
  {
    var r := AfterTransformShape(segs, index);
    if CanToggle(segs, index) && segs[index].command == G01 {
      var s, e := segs[index].target, segs[index - 1].target;
      MidpointEquidistant(s, e);
      assert ArcOk(r[index].target, r[index - 1].target, r[index].center);
    }
    forall i | 1 <= i < |r| && r[i].command != G01
      ensures ArcOk(r[i].target, r[i - 1].target, r[i].center)
    {
      if i != index {
        assert r[i] == segs[i] && r[i - 1].target == segs[i - 1].target;
      }
    }
  }

  lemma DoubleClickPreserves(segs: seq<Segment>, index: int)
    requires WellFormed(segs) && 1 <= index < |segs| && segs[index].command != G01
    ensures WellFormed(AfterDoubleClickCenter(segs, index))
  {
    var r := AfterDoubleClickCenter(segs, index);
    forall i | 1 <= i < |r| && r[i].command != G01
      ensures ArcOk(r[i].target, r[i - 1].target, r[i].center)
    {
      assert r[i].target == segs[i].target && r[i].center == segs[i].center;
      assert r[i - 1].target == segs[i - 1].target && segs[i].command != G01;
    }
  }

  /** Releasing an endpoint of a well-formed list never throws and keeps the
      list well formed, provided z moves only through the Z handle. */
  lemma DragEndpointPreserves(segs: seq<Segment>, index: int, current: Point, clicked: bool)
    requires WellFormed(segs) && 0 <= index < |segs|
    requires current.z == segs[index].target.z || ShowZ(segs, index)
    ensures !AfterSegmentDragEnd(segs, index, current, clicked).threw
    ensures WellFormed(AfterSegmentDragEnd(segs, index, current, clicked).segments)
  {
    var r := AfterSegmentDragEnd(segs, index, current, clicked).segments;
    DragEndRecentresArcs(segs, index, current, clicked);
    if segs[index].command != G01 {
      MidCenterOk(current, segs[index - 1].target, segs[index].center);
      assert ArcOk(r[index].target, r[index - 1].target, r[index].center);
    }
    if index + 1 < |segs| && segs[index + 1].command != G01 {
      MidCenterOk(segs[index + 1].target, current, segs[index + 1].center);
      assert ArcOk(r[index + 1].target, r[index].target, r[index + 1].center);
    }
    forall i | 1 <= i < |r| && r[i].command != G01
      ensures ArcOk(r[i].target, r[i - 1].target, r[i].center)
    {
      if i != index && i != index + 1 {
        assert r[i] == segs[i] && r[i - 1].target == segs[i - 1].target;
      } else if i == index + 1 {
        assert r[i] == segs[i].(center := r[i].center);
      }
    }
  }

  /** A snapped centre with a numeric y lies on the chord's bisector. */
  lemma DragArcCentrePreserves(segs: seq<Segment>, index: int, current: Point,
                               dis: real, cosine: real, root: real)
    requires WellFormed(segs) && Enabled(segs, DragArcCentre(index, current, dis, cosine, root))
    ensures WellFormed(AfterCenterDragEnd(segs, index, current, dis, cosine, root))
  {
    var r := AfterCenterDragEnd(segs, index, current, dis, cosine, root);
    var s, e := segs[index].target, segs[index - 1].target;
    assert ArcOk(s, e, segs[index].center);
    var xf := Side(current, Midpoint(s, e));
    SnapOnBisector(s, e, dis, xf, cosine, root);
    assert ArcOk(r[index].target, r[index - 1].target, r[index].center);
    forall i | 1 <= i < |r| && r[i].command != G01
      ensures ArcOk(r[i].target, r[i - 1].target, r[i].center)
    {
      if i != index {
        assert r[i] == segs[i] && r[i - 1].target == segs[i - 1].target;
      }
    }
  }

  /** Every enabled event keeps a well-formed list well formed, and none of
      them throws. */
  lemma StepPreserves(segs: seq<Segment>, e: Event)
    requires WellFormed(segs) && Enabled(segs, e)
    ensures WellFormed(Step(segs, e))
    ensures e.DragEndpoint? ==> !DragThrows(segs, e.index)
  {
    match e
    case AddSegment => AddPreserves(segs);
    case ClickEndpoint(i) => ClickPreserves(segs, i);
    case ToggleShape(i) => TogglePreserves(segs, i);
    case DoubleClickArcCentre(i) => DoubleClickPreserves(segs, i);
    case DragEndpoint(i, current, clicked) => DragEndpointPreserves(segs, i, current, clicked);
    case DragArcCentre(i, current, dis, cosine, root) =>
      DragArcCentrePreserves(segs, i, current, dis, cosine, root);
  }

  // ---------------------------------------------------------------------
  // Sessions

  /** Each event in `es` is enabled in the list the previous ones produced. */
  predicate Runnable(segs: seq<Segment>, es: seq<Event>)
    decreases |es|
  {
    es == [] || (Enabled(segs, es[0]) && Runnable(Step(segs, es[0]), es[1..]))
  }

  function Run(segs: seq<Segment>, es: seq<Event>): seq<Segment>
    requires Runnable(segs, es)
    decreases |es|
  {
    if es == [] then segs else Run(Step(segs, es[0]), es[1..])
  }

  /** Any session of UI events started from a well-formed list (the empty
      one, in particular) ends in a well-formed list. */
  lemma {:induction false} RunPreserves(segs: seq<Segment>, es: seq<Event>)
    requires WellFormed(segs) && Runnable(segs, es)
    ensures WellFormed(Run(segs, es))
    decreases |es|
  {
    if es != [] {
      StepPreserves(segs, es[0]);
      RunPreserves(Step(segs, es[0]), es[1..]);
    }
  }
}
