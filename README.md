# codepen playground core, in Dafny

A model of the logic inside `src/App.js` of a browser code playground. Three
editors (markup, style, script) feed a sandboxed preview. Pens are saved to
and loaded from `localStorage` by name. The header columns of the editor
table can be resized by dragging.

- `composer.dfy` (module `Composer`): the template literal that turns the
  three buffers into the preview's `srcDoc`. Its partner is `Regions`, which
  reads the buffers back out given the markup and style lengths. Both
  directions of the round trip are proved. So is the fact that the document
  alone does not fix the regions.
- `buffers.dfy` (module `Buffers`): App's `htmlCode`, `cssCode` and `jsCode`
  state with `srcDoc`. The class `BufferStore` keeps `srcDoc` equal to the
  composition of the current buffers after every setter. A batched
  three-buffer update stands for the setters that one handler calls together.
- `persistence.dfy` (module `Persistence`): Sidebar's `resetCode`,
  `handleChange` and `handleSubmit`. The functions act on a `Session`
  value, which holds the pen name, the invalid flag, `item`, the buffers and
  the store. The classes `Sidebar` and `LocalStorage` run the handlers on
  objects and are proved against those functions. Lemmas cover the
  save-then-load round trip, loads of missing or undecodable records, and
  reset idempotence. They also show that the invalid flag is never lowered,
  that no name is ever removed from the store, and that only a save writes
  to it.
- `resizer.dfy` (module `Resizer`): the column drag. `DragState` holds
  `activeIndex`, the current render's generation, the window's listener list
  and the table's inline layout. Listeners are kept by handler identity
  (kind plus render). Each render makes new `mouseMove`, `removeListeners`
  and `mouseUp` closures. The listener effect re-runs after every render: the
  previous render's `removeListeners` runs first, then the new closures are
  registered while a drag is active. `Step` and `Run` give the machine.
  `Inv` is kept by every event. The class `ColumnResizer` runs the handlers
  and the window's dispatch. Each event method (`MouseDown`,
  `WindowMouseMove`, `WindowMouseUp`, `OtherUpdate`) is proved to land where
  `Step` does, the constructor at `Mounted`, and each helper method where
  its function does (`WithListener`, `WithoutListener`, `Detached`,
  `Rendered`, `ActiveIndexSet`, `GridColumns`, `DispatchMove`,
  `DispatchUp`).

`Cleanup` says what `removeListeners` detaches for `mouseup`. `AsWritten`
follows the code: it detaches the `removeListeners` function, which was never
registered. `Corrected` detaches the registered `mouseUp` closure. `Inv`
and every lemma outside the mouseup leak hold for both. The leak lemmas
(`DispatchUpKeepsMouseUpFns`, `DownAddsMouseUp`, `UpKeepsMouseUps`,
`DragCycleLeaksMouseUp`) are stated for `AsWritten` only, and
`CorrectedIdleHasNoListeners` for `Corrected` only. `ColumnResizer` takes the choice as
a constructor argument.

The model follows the code in two places that are easy to misread:
- A resize handle exists on all three columns, so `activeIndex = 2` is
  reachable. That column's computed width is then overwritten by `auto`.
- Listener hygiene holds for `mousemove` only. The `mouseup` closures leak
  (see Findings).

## Model

| member | source | states |
|---|---|---|
| Composer.SrcDoc | src/App.js:101 | the document is the wrapper text with markup, style and script each verbatim in its own region, in that order; its length is the buffers' lengths plus 58 |
| Composer.RegionsOfSrcDoc | src/App.js:101 | reading the regions of a composed document at the buffers' lengths gives back exactly the three buffers |
| Composer.SrcDocOfRegions | src/App.js:101 | every document with the wrapper in place is the composition of its three regions |
| Composer.MarkupCanImitateStyle | src/App.js:101 | markup that contains `</body><style>` gives the same document as a shorter markup plus a style starting with that text, so the regions are fixed only by the lengths |
| Buffers.BufferStore.constructor | src/App.js:87-103 | at mount all three buffers are empty and srcDoc is their composition |
| Buffers.BufferStore.ComposeSrcDoc | src/App.js:100-103 | the effect leaves srcDoc equal to the composition of the current buffers |
| Buffers.BufferStore.SetHtmlCode | src/App.js:95-103 | the markup buffer takes the editor's text, the other two stay, and srcDoc is recomposed |
| Buffers.BufferStore.SetCssCode | src/App.js:95-103 | the style buffer takes the editor's text, the other two stay, and srcDoc is recomposed |
| Buffers.BufferStore.SetJsCode | src/App.js:95-103 | the script buffer takes the editor's text, the other two stay, and srcDoc is recomposed |
| Buffers.BufferStore.SetAll | src/App.js:44-46 | the three setters called by one handler leave all three buffers set and srcDoc composed from all three, never from a subset |
| Buffers.TypeHeading | src/App.js:100-103 | after typing `<h1>hi</h1>` into a fresh markup editor, the body region holds it and the style and script regions are empty |
| Persistence.Lookup | src/App.js:43 | localStorage.getItem gives the value under a name that was written, and null exactly for a name never written |
| Persistence.WithPenName | src/App.js:25-28 | the pen name becomes the input's text and nothing else changes |
| Persistence.Edited | src/App.js:95-97 | an editor's setCode replaces its own buffer; the other two buffers and the rest of the session stay |
| Persistence.Parse | src/App.js:43-44 | a stored record decodes to its pen; a missing name or undecodable text gives nothing, which is the path to the catch |
| Persistence.Reset | src/App.js:20-24 | resetCode empties all three buffers and changes nothing else |
| Persistence.Submitted | src/App.js:29-57 | an empty name only raises isInvalid; an accepted submit clears the name; save writes the buffers under the name, overwriting, and makes them the item; load never writes; no other name is touched; loading a decodable record sets all three buffers and the item to it, and the buffers change in no other way; a failed load keeps buffers and item |
| Persistence.SaveThenLoad | src/App.js:32-48 | saving under a name, editing a buffer, then loading the name restores the three saved buffers and the item, and clears the name |
| Persistence.LoadMissingKeepsCode | src/App.js:42-52 | loading a name with no decodable record only clears the name; buffers, item and store stay |
| Persistence.ResetIdempotent | src/App.js:20-24 | resetCode twice equals resetCode once, with all buffers empty |
| Persistence.InvalidStaysRaised | src/App.js:54-56 | once isInvalid is true, no sequence of inputs makes it false again |
| Persistence.SavedNamesPersist | src/App.js:38 | the set of stored names only grows over any sequence of inputs |
| Persistence.StoreUnchangedWithoutSave | src/App.js:42-52 | inputs without a save leave the store exactly as it was |
| Persistence.SaveEditLoad | src/App.js:32-48 | save under a name, then edits, resets and loads, then load that name: the saved buffers come back |
| Persistence.LocalStorage.SetItem | src/App.js:38 | the name now maps to the written record; all other names are unchanged |
| Persistence.LocalStorage.GetItem | src/App.js:43 | returns the record under the name, or nothing for a name never written |
| Persistence.LocalStorage.constructor | src/App.js:38 | the store starts with no name written |
| Persistence.Sidebar.constructor | src/App.js:17-19 | the pen name starts empty, item unset, isInvalid false |
| Persistence.Sidebar.HandleChange | src/App.js:25-28 | the pen name becomes the input's text |
| Persistence.Sidebar.ResetCode | src/App.js:20-24 | the session moves as Reset says and srcDoc stays composed |
| Persistence.Sidebar.HandleSubmit | src/App.js:29-57 | the session moves as Submitted says and srcDoc stays composed |
| Persistence.SaveResetLoad | src/App.js:29-57 | save as "demo", reset, load "demo": all three buffers are back at their values before the reset |
| Resizer.ColumnWidth | src/App.js:114-122 | the dragged column's width is clientX − offsetLeft once that reaches minCellWidth; below that floor, and for every other column, the measured width |
| Resizer.MappedWidths | src/App.js:114-122 | columns.map gives one width per header |
| Resizer.GridColumns | src/App.js:114-124 | three entries, the last `auto`; undragged columns are pinned at their measured width; the dragged column's width is clientX − offsetLeft once that reaches minCellWidth, and below that it keeps its measured width |
| Resizer.DraggingLastColumnPinsOthers | src/App.js:114-124 | dragging the third column's handle only pins the first two at their measured widths |
| Resizer.WithListener | src/App.js:138-139 | addEventListener: afterwards the list holds exactly the old listeners and the new one |
| Resizer.WithoutListener | src/App.js:128-129 | removeEventListener: afterwards the list holds exactly the old listeners except that one |
| Resizer.MouseUpTarget | src/App.js:129 | the function removeListeners hands to removeEventListener("mouseup") belongs to its own render, and as written it is never that render's registered mouseUp |
| Resizer.Detached | src/App.js:127-130 | removeListeners removes its render's mouseMove; as written it removes no mouseUp closure; corrected it removes its own; nothing of another render goes |
| Resizer.Rendered | src/App.js:136-145 | a render takes the new activeIndex and a new generation, keeps the layout, detaches the previous render's mouseMove and, while dragging, registers its own mouseMove and mouseUp |
| Resizer.RenderedKeepsOthers | src/App.js:136-145 | a render adds only its own closures and removes nothing belonging to a render other than the previous one |
| Resizer.ActiveIndexSet | src/App.js:110 | setActiveIndex makes activeIndex the value; the same value changes nothing; a new value renders once, keeping the layout |
| Resizer.DispatchMove | src/App.js:113-126 | a window mousemove leaves the layout as it was or writes the grid of some registered mouseMove closure |
| Resizer.DispatchUp | src/App.js:132-135 | a window mouseup only removes listeners and queues null or nothing; with no mouseUp closure registered it changes nothing |
| Resizer.Step | src/App.js:109-145 | only a mousemove writes the layout, and it changes nothing else; a press makes its column active; a mouseup ends the drag or changes only the listener list; another render keeps activeIndex; generations never go back |
| Resizer.Run | src/App.js:109-145 | over any events, generations never go back, and without a mousemove the layout is never written |
| Resizer.Unmounted | src/App.js:142-144 | teardown touches only the listener list, removes the last render's mouseMove, and, corrected, its mouseUp |
| Resizer.MountedInv | src/App.js:92 | at mount, with no drag and no listener, the invariant holds |
| Resizer.RenderedInv | src/App.js:136-145 | a render followed by cleanup-then-register keeps the invariant |
| Resizer.StepInv | src/App.js:109-145 | every event keeps the invariant: at most the current render's mouseMove is registered, only while dragging, and a written layout ends in `auto` |
| Resizer.RunInv | src/App.js:109-145 | every sequence of events keeps the invariant |
| Resizer.Reachable | src/App.js:109-145 | from mount, after any events, at most one mousemove listener is registered and the last column is `auto` |
| Resizer.MouseDownStartsDrag | src/App.js:109-111 | mouseDown(i) sets activeIndex to i, with exactly the current render's mouseMove registered on mousemove and its mouseUp on mouseup |
| Resizer.DragMoveWritesLayout | src/App.js:113-126 | during a drag, a mousemove writes the grid computed for the active column from that event |
| Resizer.DispatchMoveSingle | src/App.js:113-126 | with one mouseMove closure registered, a mousemove writes that closure's grid; with none, the layout is untouched |
| Resizer.OtherUpdateReplacesListener | src/App.js:136-145 | a re-render during a drag removes the old mouseMove and registers the new one; activeIndex is unchanged |
| Resizer.MouseUpEndsDrag | src/App.js:132-135 | after a mouseup, activeIndex is null, no mousemove listener remains and the layout is unchanged |
| Resizer.DispatchUpRunsHandler | src/App.js:132-135 | a registered mouseUp closure runs during the mouseup dispatch, so null is queued |
| Resizer.IdleLeavesLayout | src/App.js:132-145 | with no drag active, moves, mouseups and re-renders change neither the layout nor activeIndex until the next mouseDown |
| Resizer.DispatchUpKeepsMouseUpFns | src/App.js:127-130 | as written, a mouseup dispatch detaches no mouseUp closure |
| Resizer.DownAddsMouseUp | src/App.js:109-145 | as written, pressing a handle while idle registers that render's fresh mouseUp on mouseup and removes no mouseup listener |
| Resizer.UpKeepsMouseUps | src/App.js:127-135 | as written, a mouseup (mouseUp, then the cleanup of the render it triggers) leaves the set of mouseup listeners unchanged |
| Resizer.DragCycleLeaksMouseUp | src/App.js:127-139 | as written, each mouseDown followed by mouseup leaves exactly one more mouseup listener registered |
| Resizer.CorrectedIdleHasNoListeners | src/App.js:127-145 | corrected, after any events from mount, an idle resizer has no window listener at all |
| Resizer.UnmountReleases | src/App.js:142-144 | teardown removes the mousemove listener; as written every mouseup listener stays, corrected none is left |
| Resizer.ColumnResizer.constructor | src/App.js:92 | no drag, no listener, no inline layout, and the invariant holds |
| Resizer.ColumnResizer.AddEventListener | src/App.js:138-139 | the listener is in the list once, appended if it was new |
| Resizer.ColumnResizer.RemoveEventListener | src/App.js:128-129 | the listener is no longer in the list; the others stay in order |
| Resizer.ColumnResizer.RemoveListeners | src/App.js:127-130 | the list becomes Detached of the old list |
| Resizer.ColumnResizer.Rerender | src/App.js:136-145 | the state becomes Rendered: previous cleanup, then registration while dragging |
| Resizer.ColumnResizer.AddListeners | src/App.js:137-140 | the list becomes the old list with the render's mouseMove and then its mouseUp added |
| Resizer.ColumnResizer.SetActiveIndex | src/App.js:110 | a new value re-renders; the same value changes nothing |
| Resizer.ColumnResizer.MouseDown | src/App.js:109-111 | activeIndex becomes the column; the state moves as Step says and the invariant holds |
| Resizer.ColumnResizer.MouseMove | src/App.js:113-126 | the table's layout becomes GridColumns for the closure's captured activeIndex and the event |
| Resizer.ColumnResizer.WindowMouseMove | src/App.js:113-126 | the state moves as Step says for a mousemove and the invariant holds |
| Resizer.ColumnResizer.DispatchMouseMove | src/App.js:113-126 | the loop over the listeners leaves the layout DispatchMove gives |
| Resizer.ColumnResizer.DispatchMouseUp | src/App.js:132-135 | the list and the queued activeIndex are those of DispatchUp |
| Resizer.ColumnResizer.WindowMouseUp | src/App.js:132-135 | the state moves as Step says for a mouseup, activeIndex is null, and the invariant holds |
| Resizer.ColumnResizer.OtherUpdate | src/App.js:136-145 | the state moves as Step says for a re-render and the invariant holds |
| Resizer.DragThenRelease | src/App.js:109-145 | a drag's first move writes the grid for the pressed column; a move after the release leaves that layout unchanged |

## Left out

- src/Editor.js: the Monaco editor is an external component. Its only effect
  here is `setCode(value)`, which is modelled by the `BufferStore` setters.
- Rendering: JSX, evergreen-ui widgets, popovers and `PenInput` are UI only.
  The sandboxed iframe and the running of `srcDoc` are not modelled; only the
  string is.
- The `tableHeight` effect and real DOM measurements are left out.
  `clientX`, `offsetLeft` and `offsetWidth` are integer inputs (`Pointer`,
  `ColumnBox`). A fractional `clientX` is not modelled.
- `clientX` is measured from the viewport and `offsetLeft` from the
  table. The model only says the dragged width is their difference. That
  puts the column's right edge at the pointer only when the table starts at
  the viewport's left edge, which depends on CSS outside `src/App.js`.
- The layout is kept as a list of widths (`Px(n)` or `Auto`). The
  `"<n>px"` text joined by spaces that is written to `gridTemplateColumns`
  is not modelled.
- JSON text and `localStorage` itself are abstracted as a map of `Record` or
  `Garbage`. A value that parses but lacks the three fields (so `data.html`
  is `undefined`) is not modelled.
- `console.log` in the catch is left out.
- The `penName != null` test is not modelled: `penName` is always a string,
  because it comes from `useState('')` and the input's text.
- React plumbing is simplified:
  - `useRef` inside `createHeaders` and `useCallback` memoisation are not
    modelled. Memoisation never takes effect because `columns` is new on
    every render, so each render is modelled as making fresh closures.
  - A render and its passive effect are one atomic step. A mousemove that
    reaches a stale closure between commit and effect flush is not modelled.
    Likewise `srcDoc` is set by a passive effect, so in App the render that
    commits a buffer change still shows the previous `srcDoc`; the model has
    `srcDoc` recomposed in the same step as the setter.
  - Setting `activeIndex` to the value it already has is modelled as React's
    bail-out: no render.
  - Updates queued in one handler are batched into one render.
- Re-renders caused by other App state are not linked to `BufferStore`.
  These are buffer edits, `srcDoc` and `tableHeight`. In the resizer they
  are the `OtherUpdate` event, which re-runs the listener effect.
- Unmount is modelled only as the last cleanup (`Unmounted`). Events after
  unmount are not modelled.
- `Sidebar.item` is modelled, but the source never reads it.

## Findings

| source | as written | input that shows it | evidently intended | confidence | as-written member | corrected member |
|---|---|---|---|---|---|---|
| src/App.js:129 | `removeListeners` calls `removeEventListener("mouseup", removeListeners)`, but the handler registered on line 139 is `mouseUp`, so no `mouseup` listener is ever removed | from mount, press any handle and release: the `mouseUp` of the render the press causes stays registered, and each further drag adds one more | detach the registered `mouseUp`, so an idle resizer holds no window listener | high; not executed | Resizer.DragCycleLeaksMouseUp | Resizer.CorrectedIdleHasNoListeners |
