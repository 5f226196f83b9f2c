# Area bookkeeping and layout composition of the typst layout engine

This project models the core of the layout module of typst (`src/layout/mod.rs`).
It covers three parts:

- **The supply of placement areas** (`Areas`). It is a queue of `Area`s with an overflow policy. Under `Stop` the areas are consumed until none is left. Under `Spill` the last area is never removed: once it is the only one left, each call hands out a fresh copy of it.
- **A single area** (`Area`). It holds the page size, the usable rectangle and a reserved shape group. Its fit test `place` is modelled, and so are the two edge moves `shrink_by` and `shrink_to`, which clamp the moved edge at the opposite edge.
- **Layouts** (`Layout`). A layout is a dimension plus a flat list of positioned elements. `push` appends one element. `push_layout` embeds another layout by translating each of its elements.

Coordinates are exact `real`s, and the fit tolerance `EPS` is the real `0.0001`.
`Area`, `Areas` and `Layout` are classes, because the source updates their fields in place.
Each mutating method is proved against a pure function on values:

- `Step`, `Draws` and `After` model one and several `next` calls.
- `ShrunkBy` and `ShrunkTo` model the two edge moves.
- `Translated` models embedding.

The lemmas about repeated calls and about composition are proved about these functions.

Files:

- `geom.dfy` (module `Geom`): the records `Point`, `Size`, `Rect` and `Dim`. They come from `crate::geom`, which is not part of this model, so they are modelled as plain records. `Rect` width is `x1 - x0` and height is `y1 - y0`. Point addition is component-wise. `Dim::to_size` gives `(width, height + depth)`.
- `primitive.dfy` (modules `Primitive` and `Options`): the enumerations `Side`, `SpecAxis` and `GenAlign`, and `Option`. `layout/primitive.rs` is not part of this model.
- `regions.dfy` (module `Regions`): `Overflow`, `Area`, `Areas`, and the queue and shrink functions and lemmas.
- `layouts.dfy` (module `Layouts`): `Layout`, `Translated` and its lemmas, and the datatypes `LayoutItem`, `Placement` and `Collider`. The element type is a type parameter.

## Model

| member | source | states |
|---|---|---|
| `Regions.Areas.constructor` | src/layout/mod.rs:148-150 | the supply holds exactly the given areas and policy |
| `Regions.Areas.Next` | src/layout/mod.rs:152-160 | the areas left are those of one `Step`; the result is none exactly when the supply was empty; a supply holding each area once still does so afterwards, and the area handed out is no longer in it; when the front area is consumed, that very area is returned; otherwise (a single area under `Spill`) a fresh copy with equal size, usable rectangle and shape is returned and the supply is unchanged |
| `Regions.Step` | src/layout/mod.rs:152-160 | one call yields none iff the supply is empty, and then leaves it empty; otherwise it yields the front area; under `Stop` or with more than one area the supply becomes the old one minus its front, order kept; a single area under `Spill` stays; a non-empty `Spill` supply never becomes empty |
| `Regions.Draws` | src/layout/mod.rs:152-160 | `n` successive calls give exactly `n` outcomes |
| `Regions.After` | src/layout/mod.rs:152-160 | the supply never grows; under `Stop` each call removes exactly one area until none is left |
| `Regions.StopDrainsInOrder` | src/layout/mod.rs:152-160 | under `Stop`, call `i` yields area `i` of the original supply while `i` is below its length and none afterwards; after `n` calls the supply is the suffix from `n` (empty once `n` reaches the length) |
| `Regions.StopExhausted` | src/layout/mod.rs:152-160 | under `Stop`, a supply of `k` areas is empty after `k` calls and every later call yields none |
| `Regions.SpillStaysOnLast` | src/layout/mod.rs:155-158 | under `Spill`, a non-empty supply yields its areas in order and then its last area on every further call, so a call never yields none |
| `Regions.SpillKeepsLast` | src/layout/mod.rs:155-158 | under `Spill`, after `n` calls the supply is the unused suffix, or the last area alone once all others were consumed, so it is never empty |
| `Regions.SpillSingletonRepeats` | src/layout/mod.rs:157-158 | under `Spill`, a single area is yielded by every call and stays in the supply |
| `Regions.Area.constructor` | src/layout/mod.rs:163-168 | an area holds the given page size, usable rectangle and shape |
| `Regions.Area.Clone` | src/layout/mod.rs:163-168 | a copy is a fresh object with equal fields |
| `Regions.Area.Place` | src/layout/mod.rs:172-186 | only the top side of a rectangular area is supported; on success the box's left and top edges lie on those of the usable rectangle and its right and bottom edges (baseline origin plus width, plus depth) lie strictly inside the usable rectangle inflated by `EPS`; on failure the box would reach or cross the inflated right or bottom edge |
| `Regions.ShrunkBy` | src/layout/mod.rs:188-195 | moving an edge inward by `amount` is moving it to its old position plus (left/top) or minus (right/bottom) `amount`; on an ordered rectangle with a non-negative amount the result stays ordered and inside the old rectangle |
| `Regions.ShrunkTo` | src/layout/mod.rs:197-204 | the other three edges are unchanged; the moved edge is the target, or the opposite edge when the target lies past it, and never passes either; the moved axis is ordered afterwards, and an ordered rectangle stays ordered |
| `Regions.ShrinkByAccumulates` | src/layout/mod.rs:188-195 | two shrinks of the same edge, the second by a non-negative amount, equal one shrink by the sum |
| `Regions.ShrinkToIdempotent` | src/layout/mod.rs:197-204 | moving an edge to the same target twice is moving it once |
| `Regions.Area.ShrinkBy` | src/layout/mod.rs:188-195 | only the usable rectangle changes, and it becomes `ShrunkBy` of the old one; size and shape are untouched |
| `Regions.Area.ShrinkTo` | src/layout/mod.rs:197-204 | only the usable rectangle changes, and it becomes `ShrunkTo` of the old one; size and shape are untouched |
| `Layouts.Layout.constructor` | src/layout/mod.rs:108-110 | a new layout has the given dimension and no elements |
| `Layouts.Layout.Size` | src/layout/mod.rs:112-114 | the outer size has the layout's width and its total height above plus below the baseline |
| `Layouts.PlaceFitsSize` | src/layout/mod.rs:112-114 | an area takes a layout at its top exactly when the layout's outer size (from `size`) fits the usable rectangle up to `EPS`, whatever the split between height and depth |
| `Layouts.Layout.Push` | src/layout/mod.rs:116-118 | the element is appended at the given position; the dimension is untouched |
| `Layouts.Layout.PushLayout` | src/layout/mod.rs:120-124 | the dimension and the existing elements are kept, and exactly the other layout's elements follow, in order, each moved by `pos`; the loop does this one `Push` at a time |
| `Layouts.Translated` | src/layout/mod.rs:120-124 | translation keeps the length and the order; element `i` keeps its payload and gets position `pos + delta_i` |
| `Layouts.TranslatedSnoc` | src/layout/mod.rs:120-124 | translating one more element appends exactly that element moved, which is the step of the embedding loop |
| `Layouts.TranslatedAppend` | src/layout/mod.rs:120-124 | translating a concatenation concatenates the translations |
| `Layouts.TranslatedCompose` | src/layout/mod.rs:120-124 | embedding at `q` and then at `p` equals embedding once at `p + q` |
| `Layouts.TranslatedOrigin` | src/layout/mod.rs:120-124 | embedding at the origin keeps every position |

## Left out

- The asynchronous `layout` driver (src/layout/mod.rs:36-72) is not modelled. It borrows the font loader, awaits text shaping and feeds the stack layouter, and both of those live in `layout/shaping.rs` and `layout/stack.rs`, which are not part of this model. The driver turns only `Text` nodes into items and skips every other node (line 65).
- `Env` and `State` (lines 75-92) are not modelled. They are holders of the feedback, loader, scope and style, with no logic.
- `Area::add` and `Area::subtract` (lines 206-212) are not modelled, because they are unimplemented stubs over Bézier paths.
- The `Deref` of `Areas` to a slice (lines 215-221) is not modelled. Neither is the `Layouter` trait (lines 127-131), which only declares signatures. Without `Deref`, the model reads the `vec` field directly.
- `LayoutItem`, `Placement` and `Collider` are declared as datatypes only, because no operation in this file inspects them.
- `src/library/prelude.rs` contains only re-exports, so it is not modelled.
- IEEE-754 `f64` behaviour is not modelled: no rounding, NaN or infinities. `min` and `max` are the exact real ones.
- Regions.Area.Place: the source panics through `assert_eq!`/`assert!` when `side` is not `Top` or the area has a shape. The model states these two conditions as preconditions, because they are contract violations rather than runtime input.
- Layouts.Layout.PushLayout: the source takes the other layout by value, so it cannot alias the receiver. The model reads the other layout's elements before the first push, so the stated result also holds when both are the same object.
- Regions.Area.Place: the fit test is the strict comparison `usable + EPS > needed` of src/layout/mod.rs:179-180. A non-strict `>=` would accept a box that needs exactly `usable + EPS`; the code's `>` rejects it, and so does the model.
- Regions.ShrunkBy: containment in the old rectangle is stated only for a non-negative amount. Nothing in the source keeps the usable rectangle inside the page: a negative `by`, or a `shrink_to` target beyond the edge, moves that edge outward. Only the ordering of the edges is preserved unconditionally.
- Regions.Areas: in Rust the supply owns its areas (they are moved into the vector), so no other code can change an area while it is in the supply and no area is stored twice. The model holds references: the constructor does not demand distinct areas, and a caller that kept a reference to a stored area can shrink it between `Next` calls. `Next` keeps distinctness when it holds (`Distinct`) and hands out an area that is no longer in the supply, but the repeated-call lemmas speak of the stored objects, and their fields are the same from call to call only when no caller mutates them in between.
- `LayoutItem::Layout` is named `LayoutBox` in the model, so that it is not confused with the class `Layout`.
