/** Placement regions: a single `Area` whose usable rectangle shrinks as content
    is placed, and `Areas`, the ordered supply of areas with its overflow policy. */
module Regions {
  import opened Options
  import opened Geom
  import opened Primitive

  /** What the supply does once a single area is left. */
  datatype Overflow = Stop | Spill

  /** Tolerance of the fit test, absorbing error from earlier shrinks. */
  const EPS: real := 0.0001

  function Min(a: real, b: real): real { if a <= b then a else b }

  function Max(a: real, b: real): real { if a >= b then a else b }

  // ---------------------------------------------------------------------------
  // The supply of areas as a queue with a sticky tail
  // ---------------------------------------------------------------------------

  /** The outcome of one `next` call: the area handed out and the areas left. */
  datatype Draw<A> = Draw(taken: Option<A>, rest: seq<A>)

  /** `next` removes the front area, rather than handing out a copy of it,
      whenever more than one area is left or the policy is `Stop`. */
  predicate Consumes<A>(vec: seq<A>, overflow: Overflow)
  {
    |vec| > 1 || overflow == Stop
  }

  /** One `next` call on the areas `vec`. */
  function Step<A>(vec: seq<A>, overflow: Overflow): (d: Draw<A>)
    ensures d.taken.None? <==> vec == []
    ensures vec == [] ==> d.rest == vec
    ensures vec != [] ==> d.taken == Some(vec[0])
    ensures vec != [] && Consumes(vec, overflow) ==> vec == [vec[0]] + d.rest
    ensures vec != [] && !Consumes(vec, overflow) ==> |vec| == 1 && d.rest == vec
    ensures overflow == Spill && vec != [] ==> d.rest != []
  {
    if vec == [] then Draw(None, vec)
    else if Consumes(vec, overflow) then Draw(Some(vec[0]), vec[1..])
    else Draw(Some(vec[0]), vec)
  }

  /** What `n` successive `next` calls hand out, in call order. */
  function Draws<A>(vec: seq<A>, overflow: Overflow, n: nat): (out: seq<Option<A>>)
    ensures |out| == n
  {
    if n == 0 then []
    else
      var d := Step(vec, overflow);
      [d.taken] + Draws(d.rest, overflow, n - 1)
  }

  /** The areas left after `n` successive `next` calls: never more than
      before, and fewer by exactly one per call while the front is consumed. */
  function After<A>(vec: seq<A>, overflow: Overflow, n: nat): (left: seq<A>)
    ensures |left| <= |vec|
    ensures overflow == Stop ==> |left| == if n <= |vec| then |vec| - n else 0
  {
    if n == 0 then vec else After(Step(vec, overflow).rest, overflow, n - 1)
  }

  /** Under `Stop` the areas come out once each, in their original order, and
      every call after the last one hands out nothing. */
  lemma {:induction false} StopDrainsInOrder<A>(vec: seq<A>, n: nat)
    ensures forall i :: 0 <= i < n ==>
      Draws(vec, Stop, n)[i] == if i < |vec| then Some(vec[i]) else None
    ensures After(vec, Stop, n) == if n <= |vec| then vec[n..] else []
  {
    if n > 0 {
      var d := Step(vec, Stop);
      StopDrainsInOrder(d.rest, n - 1);
      forall i | 0 <= i < n
        ensures Draws(vec, Stop, n)[i] == if i < |vec| then Some(vec[i]) else None
      {
        if i > 0 {
          assert Draws(vec, Stop, n)[i] == Draws(d.rest, Stop, n - 1)[i - 1];
          if vec != [] {
            assert d.rest == vec[1..];
          }
        }
      }
      if vec != [] {
        assert d.rest == vec[1..];
        assert n - 1 <= |vec| - 1 ==> d.rest[n - 1..] == vec[n..];
      }
    }
  }

  /** A supply of `n` areas under `Stop` is empty after `n` calls, and every
      further call hands out nothing. */
  lemma StopExhausted<A>(vec: seq<A>, m: nat)
    requires m >= |vec|
    ensures After(vec, Stop, |vec|) == []
    ensures forall i :: |vec| <= i < m ==> Draws(vec, Stop, m)[i] == None
  {
    StopDrainsInOrder(vec, |vec|);
    StopDrainsInOrder(vec, m);
  }

  /** Under `Spill` a non-empty supply hands out its areas in order and then the
      last one forever; it never runs dry. */
  lemma {:induction false} SpillStaysOnLast<A>(vec: seq<A>, n: nat)
    requires vec != []
    ensures forall i :: 0 <= i < n ==>
      Draws(vec, Spill, n)[i] == Some(if i < |vec| then vec[i] else vec[|vec| - 1])
  {
    if n > 0 {
      var d := Step(vec, Spill);
      SpillStaysOnLast(d.rest, n - 1);
      var out := Draws(vec, Spill, n);
      assert out == [Some(vec[0])] + Draws(d.rest, Spill, n - 1);
      forall i | 0 <= i < n
        ensures out[i] == Some(if i < |vec| then vec[i] else vec[|vec| - 1])
      {
        if i > 0 {
          assert out[i] == Draws(d.rest, Spill, n - 1)[i - 1];
          if |vec| > 1 {
            assert d.rest == vec[1..];
          }
        }
      }
    }
  }

  /** Under `Spill` the areas left after `n` calls are the unused ones, and at
      least the last area. */
  lemma {:induction false} SpillKeepsLast<A>(vec: seq<A>, n: nat)
    requires vec != []
    ensures After(vec, Spill, n) == if n < |vec| then vec[n..] else [vec[|vec| - 1]]
  {
    if n > 0 {
      var d := Step(vec, Spill);
      SpillKeepsLast(d.rest, n - 1);
      if |vec| > 1 {
        assert d.rest == vec[1..];
        assert n - 1 < |vec| - 1 ==> d.rest[n - 1..] == vec[n..];
      } else {
        assert vec == [vec[0]];
      }
    } else {
      assert vec[0..] == vec;
    }
  }

  /** Under `Spill` a single remaining area is handed out by every call and
      stays in the supply. */
  lemma SpillSingletonRepeats<A>(a: A, n: nat)
    ensures forall i :: 0 <= i < n ==> Draws([a], Spill, n)[i] == Some(a)
    ensures After([a], Spill, n) == [a]
  {
    SpillStaysOnLast([a], n);
    SpillKeepsLast([a], n);
  }

  // ---------------------------------------------------------------------------
  // Shrinking the usable rectangle
  // ---------------------------------------------------------------------------

  /** The coordinate of the edge `side` of `r`. */
  function Edge(r: Rect, side: Side): real
  {
    match side
    case Left => r.x0
    case Top => r.y0
    case Right => r.x1
    case Bottom => r.y1
  }

  /** `r` with the edge `side` moved to `to`, but never past the opposite edge. */
  function ShrunkTo(r: Rect, to: real, side: Side): (s: Rect)
    ensures forall other: Side :: other != side ==> Edge(s, other) == Edge(r, other)
    ensures side == Left ==> s.x0 <= to && s.x0 <= s.x1 && (s.x0 == to || s.x0 == s.x1)
    ensures side == Right ==> s.x1 >= to && s.x1 >= s.x0 && (s.x1 == to || s.x1 == s.x0)
    ensures side == Top ==> s.y0 <= to && s.y0 <= s.y1 && (s.y0 == to || s.y0 == s.y1)
    ensures side == Bottom ==> s.y1 >= to && s.y1 >= s.y0 && (s.y1 == to || s.y1 == s.y0)
    ensures r.Ordered() ==> s.Ordered()
  {
    match side
    case Left => r.(x0 := Min(to, r.x1))
    case Right => r.(x1 := Max(to, r.x0))
    case Top => r.(y0 := Min(to, r.y1))
    case Bottom => r.(y1 := Max(to, r.y0))
  }

  /** `r` with the edge `side` moved inward by `amount`, but never past the
      opposite edge. */
  function ShrunkBy(r: Rect, amount: real, side: Side): (s: Rect)
    ensures s == ShrunkTo(r, if side.Left? || side.Top? then Edge(r, side) + amount else Edge(r, side) - amount, side)
    ensures r.Ordered() && amount >= 0.0 ==> s.Ordered() && r.Contains(s)
  {
    match side
    case Left => r.(x0 := Min(r.x0 + amount, r.x1))
    case Right => r.(x1 := Max(r.x1 - amount, r.x0))
    case Top => r.(y0 := Min(r.y0 + amount, r.y1))
    case Bottom => r.(y1 := Max(r.y1 - amount, r.y0))
  }

  /** Two shrinks of the same edge, the second by a non-negative amount, are
      one shrink by the sum. */
  lemma ShrinkByAccumulates(r: Rect, a: real, b: real, side: Side)
    requires b >= 0.0
    ensures ShrunkBy(ShrunkBy(r, a, side), b, side) == ShrunkBy(r, a + b, side)
  {
  }

  /** Moving an edge to the same place twice is moving it once. */
  lemma ShrinkToIdempotent(r: Rect, to: real, side: Side)
    ensures ShrunkTo(ShrunkTo(r, to, side), to, side) == ShrunkTo(r, to, side)
  {
  }

  // ---------------------------------------------------------------------------
  // A single area
  // ---------------------------------------------------------------------------

  /** A placement region: the page `size`, the rectangle still `usable` inside
      it, and a shape group `G` reserved for non-rectangular flow. */
  class Area<G> {
    var size: Size
    var usable: Rect
    var shape: Option<G>

    constructor (size: Size, usable: Rect, shape: Option<G>)
      ensures this.size == size && this.usable == usable && this.shape == shape
    {
      this.size := size;
      this.usable := usable;
      this.shape := shape;
    }

    /** An independent copy with the same fields. */
    method Clone() returns (c: Area<G>)
      ensures fresh(c)
      ensures c.size == size && c.usable == usable && c.shape == shape
    {
      c := new Area(size, usable, shape);
    }

    /** Where a box of dimension `dim` goes when placed against the top of the
        usable rectangle: its baseline origin, or nothing when it does not fit
        (up to EPS). Only the top side and rectangular areas are supported. */
    function Place(dim: Dim, side: Side): (p: Option<Point>)
      reads this
      requires side == Top
      requires shape.None?
      ensures p.Some? ==>
        // left edge and top edge of the box lie on those of the usable rectangle
        p.value.x == usable.x0 && p.value.y - dim.height == usable.y0 &&
        // right and bottom edges lie inside it, inflated by EPS
        p.value.x + dim.width < usable.x1 + EPS && p.value.y + dim.depth < usable.y1 + EPS
      ensures p.None? ==>
        usable.x0 + dim.width >= usable.x1 + EPS ||
        usable.y0 + dim.height + dim.depth >= usable.y1 + EPS
    {
      if usable.Width() + EPS > dim.width && usable.Height() + EPS > dim.height + dim.depth then
        Some(Point(usable.x0, usable.y0 + dim.height))
      else
        None
    }

    /** Moves the edge `side` inward by `amount`, clamped at the opposite edge. */
    method ShrinkBy(amount: real, side: Side)
      modifies this`usable
      ensures usable == ShrunkBy(old(usable), amount, side)
    {
      usable := ShrunkBy(usable, amount, side);
    }

    /** Moves the edge `side` to `to`, clamped at the opposite edge. */
    method ShrinkTo(to: real, side: Side)
      modifies this`usable
      ensures usable == ShrunkTo(old(usable), to, side)
    {
      usable := ShrunkTo(usable, to, side);
    }
  }

  // ---------------------------------------------------------------------------
  // The supply of areas
  // ---------------------------------------------------------------------------

  /** An ordered supply of areas with an overflow policy. */
  class Areas<G> {
    var vec: seq<Area<G>>
    const overflow: Overflow

    /** The supply holds each area object at most once, as a vector that owns
        its areas does. */
    ghost predicate Distinct()
      reads this
    {
      forall i, j :: 0 <= i < j < |vec| ==> vec[i] != vec[j]
    }

    constructor (vec: seq<Area<G>>, overflow: Overflow)
      ensures this.vec == vec && this.overflow == overflow
    {
      this.vec := vec;
      this.overflow := overflow;
    }

    /** Hands out the next area. The front area is removed unless it is the
        last one under `Spill`, in which case a copy is handed out and the
        area stays. */
    method Next() returns (r: Option<Area<G>>)
      modifies this`vec
      ensures vec == Step(old(vec), overflow).rest
      ensures r.None? <==> old(vec) == []
      ensures Consumes(old(vec), overflow) ==> r == Step(old(vec), overflow).taken
      ensures r.Some? && !Consumes(old(vec), overflow) ==>
        fresh(r.value) &&
        r.value.size == vec[0].size && r.value.usable == vec[0].usable && r.value.shape == vec[0].shape
      ensures old(Distinct()) ==> Distinct()
      // the area handed out is no longer shared with the supply
      ensures r.Some? && old(Distinct()) ==> r.value !in vec
    {
      if vec == [] {
        r := None;
      } else if |vec| > 1 || overflow == Stop {
        r := Some(vec[0]);
        vec := vec[1..];
      } else {
        var copy := vec[0].Clone();
        r := Some(copy);
      }
    }
  }
}
