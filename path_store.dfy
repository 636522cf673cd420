/** The segment store of the path editor: an ordered list of segment records
    that only grows at its end (`createSegment`) and whose records are
    replaced by a shallow merge with a delta (`updateSegment`). */
module PathStore {
  import opened Wrappers
  import opened Geometry

  /** The G-code command of a segment: a straight line or one of the two arcs. */
  datatype Command = G01 | G02 | G03

  /** One key of a JavaScript object holding a coordinate: absent, a number,
      or NaN. */
  datatype Coord = Missing | Num(v: real) | NaN

  /** The `center` key of a segment: absent, or an object whose `x`, `y` and
      `z` keys may each be missing (`{}` has none of them). */
  datatype Center = Absent | Obj(x: Coord, y: Coord, z: Coord)

  /** A segment record: `{command, target, editing, center?}`. */
  datatype Segment = Segment(command: Command, target: Point, editing: bool, center: Center)

  /** The argument of `updateSegment`: an object carrying any subset of the
      segment's keys. */
  datatype Delta = Delta(command: Option<Command>, target: Option<Point>,
                         editing: Option<bool>, center: Option<Center>)

  /** The record `createSegment` appends. */
  const DefaultSegment := Segment(G01, Point(0.0, 0.0, 0.0), false, Absent)

  /** `{...s, ...d}`: the keys present in `d` take its values, the others keep
      the values they have in `s`. */
  function Merge(s: Segment, d: Delta): Segment
  {
    Segment(
      if d.command.Some? then d.command.value else s.command,
      if d.target.Some? then d.target.value else s.target,
      if d.editing.Some? then d.editing.value else s.editing,
      if d.center.Some? then d.center.value else s.center)
  }

  /** `{...d1, ...d2}`: two deltas spread one after the other, `d2` winning. */
  function Combine(d1: Delta, d2: Delta): Delta
  {
    Delta(
      if d2.command.Some? then d2.command else d1.command,
      if d2.target.Some? then d2.target else d1.target,
      if d2.editing.Some? then d2.editing else d1.editing,
      if d2.center.Some? then d2.center else d1.center)
  }

  /** A whole segment record used as a delta (`{...segment}`); an absent
      `center` key is not spread. */
  function Spread(s: Segment): (d: Delta)
    ensures forall t: Segment :: s.center != Absent ==> Merge(t, d) == s
    ensures forall t: Segment :: s.center == Absent ==> Merge(t, d) == s.(center := t.center)
  {
    Delta(Some(s.command), Some(s.target), Some(s.editing),
          if s.center == Absent then None else Some(s.center))
  }

  /** The segment list after `updateSegment(id, d)`: the record at `id` is
      merged with `d`, every other record and the length stay as they were. */
  function Updated(segs: seq<Segment>, id: int, d: Delta): (r: seq<Segment>)
    requires 0 <= id < |segs|
    ensures |r| == |segs|
    ensures forall j :: 0 <= j < |segs| && j != id ==> r[j] == segs[j]
    ensures d.command.Some? ==> r[id].command == d.command.value
    ensures d.command.None? ==> r[id].command == segs[id].command
    ensures d.target.Some? ==> r[id].target == d.target.value
    ensures d.target.None? ==> r[id].target == segs[id].target
    ensures d.editing.Some? ==> r[id].editing == d.editing.value
    ensures d.editing.None? ==> r[id].editing == segs[id].editing
    ensures d.center.Some? ==> r[id].center == d.center.value
    ensures d.center.None? ==> r[id].center == segs[id].center
  {
    segs[id := Merge(segs[id], d)]
  }

  /** Applying the same delta twice is the same as applying it once. */
  lemma UpdateIdempotent(segs: seq<Segment>, id: int, d: Delta)
    requires 0 <= id < |segs|
    ensures Updated(Updated(segs, id, d), id, d) == Updated(segs, id, d)
  {
  }

  /** Two updates of one index compose into one update with the spread of the
      two deltas. */
  lemma UpdateComposes(segs: seq<Segment>, id: int, d1: Delta, d2: Delta)
    requires 0 <= id < |segs|
    ensures Updated(Updated(segs, id, d1), id, d2) == Updated(segs, id, Combine(d1, d2))
  {
  }

  /** Updates of two different indices commute. */
  lemma UpdatesCommute(segs: seq<Segment>, i: int, j: int, d1: Delta, d2: Delta)
    requires 0 <= i < |segs| && 0 <= j < |segs| && i != j
    ensures Updated(Updated(segs, i, d1), j, d2) == Updated(Updated(segs, j, d2), i, d1)
  {
  }

  /** The store: the `segments` list, changed in place by its two actions. */
  class Store {
    var segments: seq<Segment>

    constructor ()
      ensures segments == []
    {
      segments := [];
    }

    /** `createSegment(id, delta)`: both arguments are ignored and the default
        line segment to the origin is pushed. */
    method CreateSegment(id: int, delta: Delta)
      modifies this
      ensures segments == old(segments) + [DefaultSegment]
      ensures |segments| == |old(segments)| + 1
      ensures segments[..|old(segments)|] == old(segments)
    {
      segments := segments + [Segment(G01, Point(0.0, 0.0, 0.0), false, Absent)];
    }

    /** `updateSegment(id, delta)`: `segments[id] = {...segments[id], ...delta}`. */
    method UpdateSegment(id: int, delta: Delta)
      requires 0 <= id < |segments|
      modifies this
      ensures segments == Updated(old(segments), id, delta)
    {
      segments := segments[id := Merge(segments[id], delta)];
    }
  }

  /** One call into the store. */
  datatype Action = Create(id: int, delta: Delta) | Update(id: int, delta: Delta)

  /** Every update in `acts`, replayed from `segs`, names an existing index. */
  predicate Applicable(segs: seq<Segment>, acts: seq<Action>)
    decreases |acts|
  {
    acts == [] ||
    (match acts[0]
     case Create(_, _) => Applicable(segs + [DefaultSegment], acts[1..])
     case Update(id, d) => 0 <= id < |segs| && Applicable(Updated(segs, id, d), acts[1..]))
  }

  /** The segment list after replaying `acts` from `segs`. */
  function Replay(segs: seq<Segment>, acts: seq<Action>): seq<Segment>
    requires Applicable(segs, acts)
    decreases |acts|
  {
    if acts == [] then segs
    else match acts[0]
      case Create(_, _) => Replay(segs + [DefaultSegment], acts[1..])
      case Update(id, d) => Replay(Updated(segs, id, d), acts[1..])
  }

  /** The number of `createSegment` calls in `acts`. */
  function Creates(acts: seq<Action>): nat
  {
    if acts == [] then 0 else (if acts[0].Create? then 1 else 0) + Creates(acts[1..])
  }

  /** No store action removes a segment: the list grows by exactly one per
      `createSegment` call and never shrinks. */
  lemma {:induction false} ReplayLength(segs: seq<Segment>, acts: seq<Action>)
    requires Applicable(segs, acts)
    ensures |Replay(segs, acts)| == |segs| + Creates(acts)
    ensures |Replay(segs, acts)| >= |segs|
    decreases |acts|
  {
    if acts != [] {
      match acts[0]
      case Create(_, _) => ReplayLength(segs + [DefaultSegment], acts[1..]);
      case Update(id, d) => ReplayLength(Updated(segs, id, d), acts[1..]);
    }
  }
}
