/** Layouts: flat collections of positioned elements with an overall dimension,
    composed by translation. The element type `E` (shaped text, shapes, images)
    is kept abstract. */
module Layouts {
  import opened Geom
  import opened Primitive
  import Regions

  /** The elements `items` moved by `pos`, in the same order. */
  function Translated<E>(pos: Point, items: seq<(Point, E)>): (r: seq<(Point, E)>)
    ensures |r| == |items|
    ensures forall i :: 0 <= i < |items| ==> r[i] == (Add(pos, items[i].0), items[i].1)
  {
    if items == [] then []
    else [(Add(pos, items[0].0), items[0].1)] + Translated(pos, items[1..])
  }

  /** Translating is done element by element: one more element at the end of
      the input is one more translated element at the end of the output. */
  lemma TranslatedSnoc<E>(pos: Point, items: seq<(Point, E)>, delta: Point, element: E)
    ensures Translated(pos, items + [(delta, element)]) == Translated(pos, items) + [(Add(pos, delta), element)]
  {
  }

  /** Translating a concatenation translates each part. */
  lemma TranslatedAppend<E>(pos: Point, a: seq<(Point, E)>, b: seq<(Point, E)>)
    ensures Translated(pos, a + b) == Translated(pos, a) + Translated(pos, b)
  {
  }

  /** Embedding a layout that itself embeds another at `q`, at `p`, places the
      inner elements at `p + q`. */
  lemma TranslatedCompose<E>(p: Point, q: Point, items: seq<(Point, E)>)
    ensures Translated(p, Translated(q, items)) == Translated(Add(p, q), items)
  {
    var inner := Translated(q, items);
    var twice := Translated(p, inner);
    var once := Translated(Add(p, q), items);
    assert |twice| == |once|;
    forall i | 0 <= i < |items|
      ensures twice[i] == once[i]
    {
      var (delta, element) := items[i];
      assert inner[i] == (Add(q, delta), element);
      assert twice[i] == (Add(p, Add(q, delta)), element);
      assert once[i] == (Add(Add(p, q), delta), element);
    }
    assert twice == once;
  }

  /** Embedding at the origin leaves the positions as they are. */
  lemma TranslatedOrigin<E>(items: seq<(Point, E)>)
    ensures Translated(Origin, items) == items
  {
  }

  /** A layout: its dimension (width, height above the baseline, depth below
      it) and its elements with their positions in the layout's own frame. */
  class Layout<E> {
    var dim: Dim
    var elements: seq<(Point, E)>

    /** An empty layout of the given dimension. */
    constructor (dim: Dim)
      ensures this.dim == dim && elements == []
    {
      this.dim := dim;
      elements := [];
    }

    /** The outer size: the full width, and the height above plus the depth
        below the baseline. */
    function Size(): (s: Geom.Size)
      reads this
      ensures s.width == dim.width && s.height == dim.height + dim.depth
    {
      dim.ToSize()
    }

    /** Adds one element at `pos`. */
    method Push(pos: Point, element: E)
      modifies this`elements
      ensures elements == old(elements) + [(pos, element)]
    {
      elements := elements + [(pos, element)];
    }

    /** Adds every element of `layout`, in order, each moved by `pos`. The
        other layout is consumed, so its elements are read before any push. */
    method PushLayout(pos: Point, layout: Layout<E>)
      modifies this`elements
      ensures elements == old(elements) + Translated(pos, old(layout.elements))
    {
      var items := layout.elements;
      for i := 0 to |items|
        invariant elements == old(elements) + Translated(pos, items[..i])
      {
        var (delta, element) := items[i];
        assert items[..i + 1] == items[..i] + [(delta, element)];
        TranslatedSnoc(pos, items[..i], delta, element);
        Push(Add(pos, delta), element);
      }
      assert items[..|items|] == items;
    }
  }

  /** An area can take a layout placed against its top exactly when the
      layout's outer size fits the usable rectangle, up to EPS: the baseline
      split of the height does not matter to the fit. */
  lemma PlaceFitsSize<G, E>(a: Regions.Area<G>, l: Layout<E>)
    requires a.shape.None?
    ensures a.Place(l.dim, Top).Some? <==>
      l.Size().width < a.usable.Width() + Regions.EPS && l.Size().height < a.usable.Height() + Regions.EPS
  {
  }

  /** A request to a layouter. */
  datatype LayoutItem<E> =
    | Space
    | Parbreak
    | LayoutBox(align: GenAlign, layout: Layout<E>)  // `LayoutItem::Layout` in the source
    | Spacing(axis: SpecAxis, amount: real)

  /** How a placed layout affects the flow around it. */
  datatype Collider = None | Tight | Bounds | Row | Column

  /** Whether a layout is placed in the flow or outside it. */
  datatype Placement = InFlow | OutOfFlow(collider: Collider)
}
