/**
 * The column-resize drag of App (src/App.js, mouseDown, mouseMove,
 * removeListeners, mouseUp and the listener effect).
 *
 * Every render of App builds a new `columns` array, hence new mouseMove,
 * removeListeners and mouseUp closures; the listener effect depends on them,
 * so it re-runs after every render: first the previous render's cleanup
 * (its removeListeners), then, while a drag is active, addEventListener of
 * the new mouseMove and mouseUp.  The window's listener list is kept by
 * handler identity, so that what removeListeners really detaches is visible.
 *
 * `Cleanup` selects what removeListeners detaches for "mouseup": the source
 * detaches the removeListeners function itself (AsWritten), which was never
 * registered; Corrected detaches the mouseUp closure that was.
 */
module Resizer {
  import opened Wrappers

  /** The editor table has three header columns: html, css, javascript. */
  const Columns: nat := 3

  /** One entry of grid-template-columns: `<n>px` or `auto`. */
  datatype Width = Px(px: int) | Auto

  /** The live offsetLeft and offsetWidth of one header cell. */
  datatype ColumnBox = ColumnBox(offsetLeft: int, offsetWidth: int)

  /** A mousemove event: the pointer's clientX and the header cells as measured when it fires. */
  datatype Pointer = Pointer(clientX: int, boxes: seq<ColumnBox>)

  /** The callback of columns.map inside mouseMove: the width chosen for column i. */
  function ColumnWidth(i: nat, activeIndex: Option<nat>, clientX: int, box: ColumnBox, minCellWidth: int): (w: Width)
    ensures w.Px?
    // the dragged column's width is clientX - offsetLeft, unless that is below minCellWidth
    ensures activeIndex == Some(i) && clientX - box.offsetLeft >= minCellWidth
            ==> box.offsetLeft + w.px == clientX && w.px >= minCellWidth
    // every other column keeps its measured width
    ensures activeIndex != Some(i) || clientX - box.offsetLeft < minCellWidth ==> w.px == box.offsetWidth
  {
    var width := clientX - box.offsetLeft;
    if activeIndex == Some(i) && width >= minCellWidth then Px(width) else Px(box.offsetWidth)
  }

  /** gridColumns as mouseMove writes it into the table: the mapped widths, with entry 2 then set to auto. */
  function GridColumns(activeIndex: Option<nat>, p: Pointer, minCellWidth: int): (grid: seq<Width>)
    requires |p.boxes| == Columns
    ensures |grid| == Columns && grid[Columns - 1] == Auto
    // a column that is not being dragged is pinned at its measured width
    ensures forall i :: 0 <= i < Columns - 1 && activeIndex != Some(i) ==> grid[i] == Px(p.boxes[i].offsetWidth)
    // the dragged column's width is clientX - offsetLeft once that reaches minCellWidth
    ensures forall i :: 0 <= i < Columns - 1 && activeIndex == Some(i) && p.clientX - p.boxes[i].offsetLeft >= minCellWidth
              ==> grid[i].Px? && p.boxes[i].offsetLeft + grid[i].px == p.clientX
    // below that floor it keeps its measured width
    ensures forall i :: 0 <= i < Columns - 1 && p.clientX - p.boxes[i].offsetLeft < minCellWidth
              ==> grid[i] == Px(p.boxes[i].offsetWidth)
  {
    MappedWidths(activeIndex, p, minCellWidth)[Columns - 1 := Auto]
  }

  /** columns.map of the width choice over the three header cells. */
  function MappedWidths(activeIndex: Option<nat>, p: Pointer, minCellWidth: int): (widths: seq<Width>)
    requires |p.boxes| == Columns
    ensures |widths| == Columns
  {
    seq(Columns, i requires 0 <= i < Columns => ColumnWidth(i, activeIndex, p.clientX, p.boxes[i], minCellWidth))
  }

  /** Dragging the last column's handle only pins the other two: its own width is overwritten by auto. */
  lemma DraggingLastColumnPinsOthers(p: Pointer, minCellWidth: int)
    requires |p.boxes| == Columns
    ensures GridColumns(Some(Columns - 1), p, minCellWidth) == [Px(p.boxes[0].offsetWidth), Px(p.boxes[1].offsetWidth), Auto]
  {
  }

  // ---- the window's listener list ----

  /** One render of App, named by its generation; its closures captured that render's activeIndex. */
  datatype Render = Render(gen: nat, activeIndex: Option<nat>)

  /** The identity of a function handed to window.addEventListener / removeEventListener. */
  datatype Handler = MouseMoveFn(r: Render) | MouseUpFn(r: Render) | RemoveListenersFn(r: Render)

  datatype EventType = MouseMoveEvent | MouseUpEvent

  datatype Listener = Listener(event: EventType, handler: Handler)

  function MoveListener(r: Render): Listener { Listener(MouseMoveEvent, MouseMoveFn(r)) }

  function UpListener(r: Render): Listener { Listener(MouseUpEvent, MouseUpFn(r)) }

  /** window.addEventListener: a listener already in the list is not added twice. */
  function WithListener(ls: seq<Listener>, l: Listener): (res: seq<Listener>)
    ensures forall m :: m in res <==> m in ls || m == l
  {
    if l in ls then ls else ls + [l]
  }

  /** window.removeEventListener: a listener not in the list is ignored. */
  function WithoutListener(ls: seq<Listener>, l: Listener): (res: seq<Listener>)
    ensures forall m :: m in res <==> m in ls && m != l
  {
    if ls == [] then []
    else if ls[0] == l then WithoutListener(ls[1..], l)
    else [ls[0]] + WithoutListener(ls[1..], l)
  }

  datatype Cleanup = AsWritten | Corrected

  /** The function removeListeners passes to removeEventListener("mouseup", ...). */
  function MouseUpTarget(cleanup: Cleanup, r: Render): (h: Handler)
    ensures h.r == r
    // as written, the function named is never the mouseUp closure the effect registers
    ensures h == MouseUpFn(r) <==> cleanup == Corrected
  {
    match cleanup
    case AsWritten => RemoveListenersFn(r)
    case Corrected => MouseUpFn(r)
  }

  /** removeListeners of render r. */
  function Detached(cleanup: Cleanup, ls: seq<Listener>, r: Render): (res: seq<Listener>)
    ensures forall m :: m in res ==> m in ls
    ensures MoveListener(r) !in res
    // as written, no mouseUp closure is ever detached
    ensures cleanup == AsWritten ==> forall m :: m in ls && m.handler.MouseUpFn? ==> m in res
    // corrected, render r's mouseUp is detached and nothing else of another render
    ensures cleanup == Corrected ==> UpListener(r) !in res
    ensures forall m :: m in ls && m.handler.r != r ==> m in res
  {
    WithoutListener(WithoutListener(ls, MoveListener(r)), Listener(MouseUpEvent, MouseUpTarget(cleanup, r)))
  }

  // ---- the drag state machine ----

  /**
   * activeIndex, the generation of the last render (whose listener effect is
   * the one in place), the window's listener list, and the table's inline
   * grid-template-columns (None until mouseMove first writes it).
   */
  datatype DragState = DragState(activeIndex: Option<nat>, gen: nat, listeners: seq<Listener>, layout: Option<seq<Width>>)

  function Current(s: DragState): Render { Render(s.gen, s.activeIndex) }

  const Mounted: DragState := DragState(None, 0, [], None)

  /** A render of App with activeIndex a, then its listener effect: cleanup of the previous render, registration while dragging. */
  function Rendered(cleanup: Cleanup, s: DragState, a: Option<nat>): (t: DragState)
    ensures t.activeIndex == a && t.gen == s.gen + 1 && t.layout == s.layout
    // the previous render's mouseMove is detached
    ensures MoveListener(Current(s)) !in t.listeners
    // while dragging, the new render's mouseMove and mouseUp are registered
    ensures a.Some? ==> MoveListener(Current(t)) in t.listeners && UpListener(Current(t)) in t.listeners
  {
    var next := Render(s.gen + 1, a);
    var cleaned := Detached(cleanup, s.listeners, Current(s));
    var ls := if a.Some? then WithListener(WithListener(cleaned, MoveListener(next)), UpListener(next)) else cleaned;
    DragState(a, s.gen + 1, ls, s.layout)
  }

  /**
   * Rendered written out field by field.  Only a proof hint: it lets
   * ColumnResizer.Rerender match its fields against Rendered's body cheaply.
   */
  lemma RenderedParts(cleanup: Cleanup, s: DragState, a: Option<nat>)
    ensures var next := Render(s.gen + 1, a);
            var cleaned := Detached(cleanup, s.listeners, Current(s));
            Rendered(cleanup, s, a)
            == DragState(a, s.gen + 1, if a.Some? then WithListener(WithListener(cleaned, MoveListener(next)), UpListener(next)) else cleaned, s.layout)
  {
  }

  /** A render adds nothing but its own closures, and removes nothing of any render but the previous one. */
  lemma RenderedKeepsOthers(cleanup: Cleanup, s: DragState, a: Option<nat>)
    ensures var t := Rendered(cleanup, s, a);
            && (forall m :: m in t.listeners ==> m in s.listeners || (a.Some? && m.handler.r == Current(t)))
            && (forall m :: m in s.listeners && m.handler.r != Current(s) ==> m in t.listeners)
  {
  }

  /** setActiveIndex(a): setting the value it already has bails out without a render. */
  function ActiveIndexSet(cleanup: Cleanup, s: DragState, a: Option<nat>): (t: DragState)
    ensures t.activeIndex == a && t.layout == s.layout
    ensures a == s.activeIndex ==> t == s
    ensures a != s.activeIndex ==> t.gen == s.gen + 1
  {
    if a == s.activeIndex then s else Rendered(cleanup, s, a)
  }

  /** A mousemove dispatched to the listeners, in registration order; each mouseMove closure writes its layout. */
  function DispatchMove(ls: seq<Listener>, layout: Option<seq<Width>>, p: Pointer, minCellWidth: int): (res: Option<seq<Width>>)
    requires |p.boxes| == Columns
    // without a registered mouseMove closure the layout is untouched; otherwise some closure's grid is written
    ensures res == layout || exists m <- ls :: m.event == MouseMoveEvent && m.handler.MouseMoveFn?
                                               && res == Some(GridColumns(m.handler.r.activeIndex, p, minCellWidth))
  {
    if ls == [] then layout
    else
      var l := ls[0];
      var written := if l.event == MouseMoveEvent && l.handler.MouseMoveFn?
                     then Some(GridColumns(l.handler.r.activeIndex, p, minCellWidth)) else layout;
      DispatchMove(ls[1..], written, p, minCellWidth)
  }

  /**
   * A mouseup dispatched to the listeners registered when it fired (a
   * listener removed meanwhile is skipped).  Each mouseUp closure queues
   * setActiveIndex(null) and runs its render's removeListeners.  Gives the
   * list afterwards and the activeIndex the queued updates ask for.
   */
  function DispatchUp(cleanup: Cleanup, snapshot: seq<Listener>, ls: seq<Listener>, pending: Option<nat>): (res: (seq<Listener>, Option<nat>))
    // listeners only leave the list, and the queued update is null or the one already pending
    ensures forall m :: m in res.0 ==> m in ls
    ensures res.1 == pending || res.1 == None
    // with no mouseUp closure in the snapshot, a mouseup changes nothing
    ensures (forall m <- snapshot :: !m.handler.MouseUpFn?) ==> res == (ls, pending)
    decreases |snapshot|
  {
    if snapshot == [] then (ls, pending)
    else
      var l := snapshot[0];
      if l.event == MouseUpEvent && l.handler.MouseUpFn? && l in ls
      then DispatchUp(cleanup, snapshot[1..], Detached(cleanup, ls, l.handler.r), None)
      else DispatchUp(cleanup, snapshot[1..], ls, pending)
  }

  /** What happens to the resizer: a press on handle i, window mousemove / mouseup, and any other re-render of App. */
  datatype Event = Down(index: nat) | Move(p: Pointer) | Up | OtherUpdate

  /** A handle exists for each of the three columns, and a move measures all three. */
  predicate WellFormed(e: Event)
  {
    (e.Down? ==> e.index < Columns) && (e.Move? ==> |e.p.boxes| == Columns)
  }

  function Step(cleanup: Cleanup, minCellWidth: int, s: DragState, e: Event): (t: DragState)
    requires WellFormed(e)
    // only a mousemove writes the layout, and it changes nothing else
    ensures e.Move? ==> t.(layout := s.layout) == s
    ensures !e.Move? ==> t.layout == s.layout
    // a press starts dragging that column; a release ends any drag; another render keeps the index
    ensures e.Down? ==> t.activeIndex == Some(e.index)
    ensures e.Up? ==> t.activeIndex == None || t == s.(listeners := t.listeners)
    ensures e.OtherUpdate? ==> t.activeIndex == s.activeIndex && t.gen == s.gen + 1
    ensures s.gen <= t.gen
  {
    match e
    case Down(i) => ActiveIndexSet(cleanup, s, Some(i))
    case Move(p) => s.(layout := DispatchMove(s.listeners, s.layout, p, minCellWidth))
    case Up =>
      var (ls, pending) := DispatchUp(cleanup, s.listeners, s.listeners, s.activeIndex);
      ActiveIndexSet(cleanup, s.(listeners := ls), pending)
    case OtherUpdate => Rendered(cleanup, s, s.activeIndex)
  }

  function Run(cleanup: Cleanup, minCellWidth: int, s: DragState, events: seq<Event>): (t: DragState)
    requires forall e <- events :: WellFormed(e)
    // renders only move forward, and without a mousemove the layout is never written
    ensures s.gen <= t.gen
    ensures (forall e <- events :: !e.Move?) ==> t.layout == s.layout
    decreases |events|
  {
    if events == [] then s
    else
      assert events[0] in events;
      assert forall e <- events[1..] :: e in events;
      Run(cleanup, minCellWidth, Step(cleanup, minCellWidth, s, events[0]), events[1..])
  }

  /** Teardown of App: the last render's cleanup runs once more. */
  function Unmounted(cleanup: Cleanup, s: DragState): (t: DragState)
    ensures t.(listeners := s.listeners) == s
    ensures forall m :: m in t.listeners ==> m in s.listeners
    ensures MoveListener(Current(s)) !in t.listeners
    ensures cleanup == Corrected ==> UpListener(Current(s)) !in t.listeners
  {
    s.(listeners := Detached(cleanup, s.listeners, Current(s)))
  }

  /** The mousemove listeners in a list. */
  function MoveListeners(ls: seq<Listener>): set<Listener>
  {
    set l | l in ls && l.event == MouseMoveEvent
  }

  /** The mouseup listeners in a list. */
  function UpListeners(ls: seq<Listener>): set<Listener>
  {
    set l | l in ls && l.event == MouseUpEvent
  }

  // ---- the invariant every reachable state keeps ----

  /** What the listener list can hold, whatever has been removed from it. */
  ghost predicate ListenersOk(cleanup: Cleanup, s: DragState)
  {
    && (forall l <- s.listeners :: l.handler.r.gen <= s.gen)
    && (forall l <- s.listeners :: l.event == MouseMoveEvent ==> s.activeIndex.Some? && l == MoveListener(Current(s)))
    && (forall l <- s.listeners :: l.event == MouseUpEvent ==> l.handler.MouseUpFn?)
    && (cleanup == Corrected ==> forall l <- s.listeners :: l.event == MouseUpEvent ==> s.activeIndex.Some? && l == UpListener(Current(s)))
  }

  ghost predicate Inv(cleanup: Cleanup, s: DragState)
  {
    && (s.activeIndex.Some? ==> s.activeIndex.value < Columns)
    && ListenersOk(cleanup, s)
    && (s.activeIndex.Some? ==> MoveListener(Current(s)) in s.listeners && UpListener(Current(s)) in s.listeners)
    && LayoutOk(s.layout)
  }

  /** A written layout has one entry per header and ends with auto. */
  predicate LayoutOk(layout: Option<seq<Width>>)
  {
    layout.Some? ==> |layout.value| == Columns && layout.value[Columns - 1] == Auto
  }

  lemma MountedInv(cleanup: Cleanup)
    ensures Inv(cleanup, Mounted)
  {
  }

  lemma RenderedInv(cleanup: Cleanup, s: DragState, a: Option<nat>)
    requires ListenersOk(cleanup, s) && LayoutOk(s.layout)
    requires a.Some? ==> a.value < Columns
    ensures Inv(cleanup, Rendered(cleanup, s, a))
  {
  }

  /**
   * A mouseUp closure that is registered when a mouseup fires runs: no other
   * render's removeListeners detaches it, so the dispatch queues setActiveIndex(null).
   */
  lemma {:induction false} DispatchUpRunsHandler(cleanup: Cleanup, snapshot: seq<Listener>, ls: seq<Listener>, pending: Option<nat>, l: Listener)
    requires l in snapshot && l in ls && l.event == MouseUpEvent && l.handler.MouseUpFn?
    ensures DispatchUp(cleanup, snapshot, ls, pending).1 == None
    decreases |snapshot|
  {
    var h := snapshot[0];
    // a mouseUp closure that runs queues null itself; otherwise l is further on
    if !(h.event == MouseUpEvent && h.handler.MouseUpFn? && h in ls) {
      assert h != l;
      DispatchUpRunsHandler(cleanup, snapshot[1..], ls, pending, l);
    }
  }

  /** With every mousemove listener being render r's mouseMove, a mousemove leaves r's layout, or nothing changed if r's is not there. */
  lemma {:induction false} DispatchMoveSingle(ls: seq<Listener>, layout: Option<seq<Width>>, p: Pointer, minCellWidth: int, r: Render)
    requires |p.boxes| == Columns
    requires forall m <- ls :: m.event == MouseMoveEvent ==> m == MoveListener(r)
    ensures DispatchMove(ls, layout, p, minCellWidth)
            == if MoveListener(r) in ls then Some(GridColumns(r.activeIndex, p, minCellWidth)) else layout
    decreases |ls|
  {
    if ls != [] {
      var l := ls[0];
      var written := if l.event == MouseMoveEvent && l.handler.MouseMoveFn?
                     then Some(GridColumns(l.handler.r.activeIndex, p, minCellWidth)) else layout;
      assert forall m <- ls[1..] :: m in ls;
      DispatchMoveSingle(ls[1..], written, p, minCellWidth, r);
      if MoveListener(r) !in ls[1..] && MoveListener(r) in ls {
        assert l == MoveListener(r);
      }
    }
  }

  /** Every event keeps the invariant. */
  lemma StepInv(cleanup: Cleanup, minCellWidth: int, s: DragState, e: Event)
    requires Inv(cleanup, s) && WellFormed(e)
    ensures Inv(cleanup, Step(cleanup, minCellWidth, s, e))
  {
    match e
    case Down(i) =>
      if Some(i) != s.activeIndex {
        RenderedInv(cleanup, s, Some(i));
      }
    case Move(p) =>
      DispatchMoveSingle(s.listeners, s.layout, p, minCellWidth, Current(s));
    case Up =>
      var (ls, pending) := DispatchUp(cleanup, s.listeners, s.listeners, s.activeIndex);
      var t := s.(listeners := ls);
      assert ListenersOk(cleanup, t);
      if s.activeIndex.Some? {
        DispatchUpRunsHandler(cleanup, s.listeners, s.listeners, s.activeIndex, UpListener(Current(s)));
        RenderedInv(cleanup, t, None);
      }
    case OtherUpdate =>
      RenderedInv(cleanup, s, s.activeIndex);
  }

  /** In a state that keeps the invariant, the mousemove listeners are the current render's alone while dragging, and none otherwise. */
  lemma MoveListenersOf(cleanup: Cleanup, s: DragState)
    requires Inv(cleanup, s)
    ensures MoveListeners(s.listeners) == if s.activeIndex.Some? then {MoveListener(Current(s))} else {}
  {
    if s.activeIndex.Some? {
      assert MoveListener(Current(s)) in MoveListeners(s.listeners);
    }
  }

  /** Every sequence of events keeps the invariant. */
  lemma {:induction false} RunInv(cleanup: Cleanup, minCellWidth: int, s: DragState, events: seq<Event>)
    requires Inv(cleanup, s) && forall e <- events :: WellFormed(e)
    ensures Inv(cleanup, Run(cleanup, minCellWidth, s, events))
    decreases |events|
  {
    if events != [] {
      assert events[0] in events;
      assert forall e <- events[1..] :: e in events;
      StepInv(cleanup, minCellWidth, s, events[0]);
      RunInv(cleanup, minCellWidth, Step(cleanup, minCellWidth, s, events[0]), events[1..]);
    }
  }

  /**
   * Whatever the user does after App mounts, at most one mousemove listener
   * is registered, and the table's last column is auto whenever a layout has
   * been written.
   */
  lemma Reachable(cleanup: Cleanup, minCellWidth: int, events: seq<Event>)
    requires forall e <- events :: WellFormed(e)
    ensures var t := Run(cleanup, minCellWidth, Mounted, events);
            && |MoveListeners(t.listeners)| <= 1
            && (t.layout.Some? ==> |t.layout.value| == Columns && t.layout.value[Columns - 1] == Auto)
  {
    var t := Run(cleanup, minCellWidth, Mounted, events);
    MountedInv(cleanup);
    RunInv(cleanup, minCellWidth, Mounted, events);
    MoveListenersOf(cleanup, t);
  }

  /** mouseDown(i) starts a drag of column i with exactly one mousemove listener, the current render's. */
  lemma MouseDownStartsDrag(cleanup: Cleanup, minCellWidth: int, s: DragState, i: nat)
    requires Inv(cleanup, s) && i < Columns
    ensures var t := Step(cleanup, minCellWidth, s, Down(i));
            && t.activeIndex == Some(i)
            && MoveListeners(t.listeners) == {MoveListener(Current(t))}
            && UpListener(Current(t)) in t.listeners
  {
    var t := Step(cleanup, minCellWidth, s, Down(i));
    StepInv(cleanup, minCellWidth, s, Down(i));
    MoveListenersOf(cleanup, t);
  }

  /** While column i is dragged, a mousemove writes the layout computed for column i from that event. */
  lemma DragMoveWritesLayout(cleanup: Cleanup, minCellWidth: int, s: DragState, p: Pointer)
    requires Inv(cleanup, s) && s.activeIndex.Some? && |p.boxes| == Columns
    ensures Step(cleanup, minCellWidth, s, Move(p)).layout == Some(GridColumns(s.activeIndex, p, minCellWidth))
  {
    DispatchMoveSingle(s.listeners, s.layout, p, minCellWidth, Current(s));
  }

  /** Any other re-render during a drag swaps the mousemove listener: the old closure out, the new one in. */
  lemma OtherUpdateReplacesListener(cleanup: Cleanup, minCellWidth: int, s: DragState)
    requires Inv(cleanup, s) && s.activeIndex.Some?
    ensures var t := Step(cleanup, minCellWidth, s, OtherUpdate);
            && t.activeIndex == s.activeIndex
            && MoveListeners(t.listeners) == {MoveListener(Render(s.gen + 1, s.activeIndex))}
            && MoveListener(Current(s)) !in t.listeners
  {
    var t := Rendered(cleanup, s, s.activeIndex);
    assert Step(cleanup, minCellWidth, s, OtherUpdate) == t;
    RenderedInv(cleanup, s, s.activeIndex);
    assert Current(t) == Render(s.gen + 1, s.activeIndex);
    MoveListenersOf(cleanup, t);
    assert MoveListener(Current(s)) !in MoveListeners(t.listeners);
  }

  /** mouseup ends the drag: activeIndex is null and no mousemove listener is left. */
  lemma MouseUpEndsDrag(cleanup: Cleanup, minCellWidth: int, s: DragState)
    requires Inv(cleanup, s)
    ensures var t := Step(cleanup, minCellWidth, s, Up);
            t.activeIndex == None && MoveListeners(t.listeners) == {} && t.layout == s.layout
  {
    var t := Step(cleanup, minCellWidth, s, Up);
    StepInv(cleanup, minCellWidth, s, Up);
    if s.activeIndex.Some? {
      DispatchUpRunsHandler(cleanup, s.listeners, s.listeners, s.activeIndex, UpListener(Current(s)));
    } else {
    }
    MoveListenersOf(cleanup, t);
  }

  /** Once no drag is active, moves, mouseups and re-renders leave the layout as it is, until the next mouseDown. */
  lemma {:induction false} IdleLeavesLayout(cleanup: Cleanup, minCellWidth: int, s: DragState, events: seq<Event>)
    requires Inv(cleanup, s) && s.activeIndex == None
    requires forall e <- events :: WellFormed(e) && !e.Down?
    ensures Run(cleanup, minCellWidth, s, events).layout == s.layout
    ensures Run(cleanup, minCellWidth, s, events).activeIndex == None
    decreases |events|
  {
    if events != [] {
      var e := events[0];
      assert e in events;
      assert forall d <- events[1..] :: d in events;
      var t := Step(cleanup, minCellWidth, s, e);
      StepInv(cleanup, minCellWidth, s, e);
      match e {
        case Move(p) =>
          DispatchMoveSingle(s.listeners, s.layout, p, minCellWidth, Current(s));
        case Up =>
          MouseUpEndsDrag(cleanup, minCellWidth, s);
        case OtherUpdate =>
      }
      IdleLeavesLayout(cleanup, minCellWidth, t, events[1..]);
    }
  }

  // ---- the mouseup listener, as written and corrected ----

  /** As written, a mouseup dispatch detaches no mouseUp closure. */
  lemma {:induction false} DispatchUpKeepsMouseUpFns(snapshot: seq<Listener>, ls: seq<Listener>, pending: Option<nat>)
    ensures forall m :: m in ls && m.handler.MouseUpFn? ==> m in DispatchUp(AsWritten, snapshot, ls, pending).0
    decreases |snapshot|
  {
    if snapshot != [] {
      var l := snapshot[0];
      if l.event == MouseUpEvent && l.handler.MouseUpFn? && l in ls {
        DispatchUpKeepsMouseUpFns(snapshot[1..], Detached(AsWritten, ls, l.handler.r), None);
      } else {
        DispatchUpKeepsMouseUpFns(snapshot[1..], ls, pending);
      }
    }
  }

  /** As written, pressing a handle while idle adds that render's mouseUp to the mouseup listeners and removes none. */
  lemma DownAddsMouseUp(minCellWidth: int, s: DragState, i: nat)
    requires Inv(AsWritten, s) && s.activeIndex == None && i < Columns
    ensures var t := Step(AsWritten, minCellWidth, s, Down(i));
            var added := UpListener(Render(s.gen + 1, Some(i)));
            && Inv(AsWritten, t) && t.activeIndex == Some(i) && Current(t) == Render(s.gen + 1, Some(i))
            && added !in UpListeners(s.listeners)
            && UpListeners(t.listeners) == UpListeners(s.listeners) + {added}
  {
    var t := Rendered(AsWritten, s, Some(i));
    assert Step(AsWritten, minCellWidth, s, Down(i)) == t;
    RenderedInv(AsWritten, s, Some(i));
    assert UpListeners(t.listeners) == UpListeners(s.listeners) + {UpListener(Render(s.gen + 1, Some(i)))};
  }

  /** As written, a mouseup removes no mouseup listener. */
  lemma UpKeepsMouseUps(minCellWidth: int, s: DragState)
    requires Inv(AsWritten, s)
    ensures UpListeners(Step(AsWritten, minCellWidth, s, Up).listeners) == UpListeners(s.listeners)
  {
    var (ls, pending) := DispatchUp(AsWritten, s.listeners, s.listeners, s.activeIndex);
    DispatchUpKeepsMouseUpFns(s.listeners, s.listeners, s.activeIndex);
    assert UpListeners(ls) == UpListeners(s.listeners);
    var t := Step(AsWritten, minCellWidth, s, Up);
    assert forall m :: m in ls && m.handler.MouseUpFn? ==> m in t.listeners;
    assert UpListeners(t.listeners) == UpListeners(ls);
  }

  /**
   * As written, every complete drag (mouseDown on a handle, then mouseup)
   * leaves one more mouseup listener behind: that drag's mouseUp closure,
   * which no removeListeners ever detaches.
   */
  lemma DragCycleLeaksMouseUp(minCellWidth: int, s: DragState, i: nat)
    requires Inv(AsWritten, s) && s.activeIndex == None && i < Columns
    ensures var t := Run(AsWritten, minCellWidth, s, [Down(i), Up]);
            var leaked := UpListener(Render(s.gen + 1, Some(i)));
            && t.activeIndex == None
            && leaked !in UpListeners(s.listeners)
            && UpListeners(t.listeners) == UpListeners(s.listeners) + {leaked}
            && |UpListeners(t.listeners)| == |UpListeners(s.listeners)| + 1
  {
    var s1 := Step(AsWritten, minCellWidth, s, Down(i));
    DownAddsMouseUp(minCellWidth, s, i);
    UpKeepsMouseUps(minCellWidth, s1);
    MouseUpEndsDrag(AsWritten, minCellWidth, s1);
    RunTwo(AsWritten, minCellWidth, s, Down(i), Up);
  }

  /** Running two events is stepping twice. */
  lemma RunTwo(cleanup: Cleanup, minCellWidth: int, s: DragState, a: Event, b: Event)
    requires WellFormed(a) && WellFormed(b)
    ensures Run(cleanup, minCellWidth, s, [a, b]) == Step(cleanup, minCellWidth, Step(cleanup, minCellWidth, s, a), b)
  {
    var s1 := Step(cleanup, minCellWidth, s, a);
    assert [a, b][0] == a && [a, b][1..] == [b];
    assert Run(cleanup, minCellWidth, s, [a, b]) == Run(cleanup, minCellWidth, s1, [b]);
    assert [b][0] == b && [b][1..] == [];
    var s2 := Step(cleanup, minCellWidth, s1, b);
    assert Run(cleanup, minCellWidth, s1, [b]) == Run(cleanup, minCellWidth, s2, []);
    assert Run(cleanup, minCellWidth, s2, []) == s2;
  }

  /** A list none of whose listeners is for mousemove or mouseup is empty. */
  lemma NoListenerLeft(ls: seq<Listener>)
    ensures (forall l <- ls :: l.event != MouseMoveEvent && l.event != MouseUpEvent) ==> ls == []
  {
    if ls != [] {
      assert ls[0] in ls;
    }
  }

  /** Corrected, a resizer that is not dragging has no window listener at all, whatever happened before. */
  lemma CorrectedIdleHasNoListeners(minCellWidth: int, events: seq<Event>)
    requires forall e <- events :: WellFormed(e)
    ensures var t := Run(Corrected, minCellWidth, Mounted, events);
            t.activeIndex == None ==> t.listeners == []
  {
    var t := Run(Corrected, minCellWidth, Mounted, events);
    RunInv(Corrected, minCellWidth, Mounted, events);
    if t.activeIndex == None {
      NoListenerLeft(t.listeners);
    }
  }

  /**
   * Teardown removes the mousemove listener; as written the mouseup
   * listeners stay registered, corrected nothing is left.
   */
  lemma UnmountReleases(cleanup: Cleanup, s: DragState)
    requires Inv(cleanup, s)
    ensures MoveListeners(Unmounted(cleanup, s).listeners) == {}
    ensures cleanup == AsWritten ==> UpListeners(Unmounted(cleanup, s).listeners) == UpListeners(s.listeners)
    ensures cleanup == Corrected ==> Unmounted(cleanup, s).listeners == []
  {
    if cleanup == Corrected {
      NoListenerLeft(Unmounted(cleanup, s).listeners);
    }
  }

  // ---- the resizer as App runs it ----

  /**
   * App's activeIndex state, the window's listener list and the table's
   * inline layout, with the source's handlers as methods.  Each event method
   * is proved to take the state where Step takes it.
   */
  class ColumnResizer {
    const minCellWidth: int
    const cleanup: Cleanup
    var activeIndex: Option<nat>
    var gen: nat
    var listeners: seq<Listener>
    var layout: Option<seq<Width>>

    function State(): DragState
      reads this
    {
      DragState(activeIndex, gen, listeners, layout)
    }

    ghost predicate Valid()
      reads this
    {
      Inv(cleanup, State())
    }

    /** Mount: no drag, no listener, the stylesheet's layout. */
    constructor (minCellWidth: int, cleanup: Cleanup)
      ensures this.minCellWidth == minCellWidth && this.cleanup == cleanup
      ensures State() == Mounted && Valid()
    {
      this.minCellWidth, this.cleanup := minCellWidth, cleanup;
      activeIndex, gen, listeners, layout := None, 0, [], None;
    }

    method AddEventListener(l: Listener)
      modifies this`listeners
      ensures listeners == WithListener(old(listeners), l)
    {
      if l !in listeners {
        listeners := listeners + [l];
      }
    }

    method RemoveEventListener(l: Listener)
      modifies this`listeners
      ensures listeners == WithoutListener(old(listeners), l)
    {
      listeners := WithoutListener(listeners, l);
    }

    /** removeListeners of render r. */
    method RemoveListeners(r: Render)
      modifies this`listeners
      ensures listeners == Detached(cleanup, old(listeners), r)
    {
      RemoveEventListener(MoveListener(r));
      RemoveEventListener(Listener(MouseUpEvent, MouseUpTarget(cleanup, r)));
    }

    /** A render with activeIndex a and its listener effect: the previous render's cleanup, then registration while dragging. */
    method Rerender(a: Option<nat>)
      modifies this`activeIndex, this`gen, this`listeners
      ensures State() == Rendered(cleanup, old(State()), a)
    {
      RenderedParts(cleanup, State(), a);
      var previous := Render(gen, activeIndex);
      activeIndex, gen := a, gen + 1;
      RemoveListeners(previous);
      if a.Some? {
        AddListeners(Render(gen, a));
      }
    }

    /** The listener effect's body while dragging: register render r's mouseMove, then its mouseUp. */
    method AddListeners(r: Render)
      modifies this`listeners
      ensures listeners == WithListener(WithListener(old(listeners), MoveListener(r)), UpListener(r))
    {
      AddEventListener(MoveListener(r));
      AddEventListener(UpListener(r));
    }

    /** setActiveIndex(a). */
    method SetActiveIndex(a: Option<nat>)
      modifies this
      ensures State() == ActiveIndexSet(cleanup, old(State()), a)
    {
      if a != activeIndex {
        Rerender(a);
      }
    }

    /** mouseDown(index), from the handle of column index. */
    method MouseDown(index: nat)
      requires Valid() && index < Columns
      modifies this
      ensures Valid()
      ensures State() == Step(cleanup, minCellWidth, old(State()), Down(index))
      ensures activeIndex == Some(index)
    {
      SetActiveIndex(Some(index));
      StepInv(cleanup, minCellWidth, old(State()), Down(index));
    }

    /** The mouseMove closure of render r: map the columns to widths, overwrite entry 2 with auto, write it to the table. */
    method MouseMove(r: Render, p: Pointer)
      requires |p.boxes| == Columns
      modifies this`layout
      ensures layout == Some(GridColumns(r.activeIndex, p, minCellWidth))
    {
      var gridColumns := new Width[Columns](i requires 0 <= i < Columns =>
                                              ColumnWidth(i, r.activeIndex, p.clientX, p.boxes[i], minCellWidth));
      assert gridColumns[..] == MappedWidths(r.activeIndex, p, minCellWidth);
      gridColumns[2] := Auto;
      layout := Some(gridColumns[..]);
    }

    /** The window dispatching a mousemove to its listeners. */
    method WindowMouseMove(p: Pointer)
      requires Valid() && |p.boxes| == Columns
      modifies this`layout
      ensures Valid()
      ensures State() == Step(cleanup, minCellWidth, old(State()), Move(p))
    {
      DispatchMouseMove(p);
      StepInv(cleanup, minCellWidth, old(State()), Move(p));
    }

    /** The dispatch loop: every mouseMove closure registered when the event fires runs, in order. */
    method DispatchMouseMove(p: Pointer)
      requires |p.boxes| == Columns
      modifies this`layout
      ensures layout == DispatchMove(listeners, old(layout), p, minCellWidth)
    {
      var snapshot := listeners;
      ghost var result := DispatchMove(snapshot, layout, p, minCellWidth);
      var i := 0;
      while i < |snapshot|
        invariant 0 <= i <= |snapshot|
        invariant result == DispatchMove(snapshot[i..], layout, p, minCellWidth)
      {
        var l := snapshot[i];
        assert snapshot[i..][1..] == snapshot[i + 1..];
        if l.event == MouseMoveEvent && l.handler.MouseMoveFn? {
          MouseMove(l.handler.r, p);
        }
        i := i + 1;
      }
      assert snapshot[i..] == [];
    }

    /**
     * The window dispatching a mouseup to the listeners registered when it
     * fires: each mouseUp closure queues setActiveIndex(null) and runs its
     * removeListeners.  Returns the queued activeIndex.
     */
    method DispatchMouseUp() returns (pending: Option<nat>)
      modifies this`listeners
      ensures (listeners, pending) == DispatchUp(cleanup, old(listeners), old(listeners), activeIndex)
    {
      var snapshot := listeners;
      pending := activeIndex;
      ghost var result := DispatchUp(cleanup, snapshot, snapshot, pending);
      var i := 0;
      while i < |snapshot|
        invariant 0 <= i <= |snapshot|
        invariant result == DispatchUp(cleanup, snapshot[i..], listeners, pending)
      {
        var l := snapshot[i];
        assert snapshot[i..][1..] == snapshot[i + 1..];
        if l.event == MouseUpEvent && l.handler.MouseUpFn? && l in listeners {
          pending := None;
          RemoveListeners(l.handler.r);
        }
        i := i + 1;
      }
    }

    /** A mouseup anywhere in the window: the dispatch, then the one render the queued update causes. */
    method WindowMouseUp()
      requires Valid()
      modifies this
      ensures Valid()
      ensures State() == Step(cleanup, minCellWidth, old(State()), Up)
      ensures activeIndex == None
    {
      var pending := DispatchMouseUp();
      SetActiveIndex(pending);
      StepInv(cleanup, minCellWidth, old(State()), Up);
      MouseUpEndsDrag(cleanup, minCellWidth, old(State()));
    }

    /** Any other state update of App: a render whose listener effect re-runs. */
    method OtherUpdate()
      requires Valid()
      modifies this
      ensures Valid()
      ensures State() == Step(cleanup, minCellWidth, old(State()), Event.OtherUpdate)
    {
      Rerender(activeIndex);
      StepInv(cleanup, minCellWidth, old(State()), Event.OtherUpdate);
    }
  }

  /**
   * Press the handle of column index, move the pointer, release it, move it
   * again: the first move lays the table out for the drag, the one after the
   * release changes nothing.
   */
  method DragThenRelease(minCellWidth: int, cleanup: Cleanup, index: nat, p: Pointer, q: Pointer)
    returns (during: Option<seq<Width>>, after: Option<seq<Width>>)
    requires index < Columns && |p.boxes| == Columns && |q.boxes| == Columns
    ensures during == Some(GridColumns(Some(index), p, minCellWidth))
    ensures after == during
  {
    var resizer := new ColumnResizer(minCellWidth, cleanup);
    resizer.MouseDown(index);
    ghost var pressed := resizer.State();
    DragMoveWritesLayout(cleanup, minCellWidth, pressed, p);
    resizer.WindowMouseMove(p);
    during := resizer.layout;
    assert during == Some(GridColumns(Some(index), p, minCellWidth));
    MouseUpEndsDrag(cleanup, minCellWidth, resizer.State());
    resizer.WindowMouseUp();
    ghost var released := resizer.State();
    MoveListenersOf(cleanup, released);
    assert released.layout == during;
    DispatchMoveSingle(released.listeners, released.layout, q, minCellWidth, Current(released));
    resizer.WindowMouseMove(q);
    after := resizer.layout;
  }
}
