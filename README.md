# Whiteboard canvas engine and admin string routines, in Dafny

The model covers the interactive photo whiteboard of the site and a few string routines from its admin pages.

Whiteboard:
- A pannable, zoomable camera transform.
- Draggable and resizable cards.
- Cyclic keyboard focus on cards.
- A four-state type filter.
- The randomly scattered initial layout.

Admin pages:
- Extracting a playlist id from a URL.
- Slugging uploaded image file names.
- Building content paths and commit messages.
- Filtering a repository listing.
- The search and sort rule of the content list.
- The dotted-name form update and the title suggestion of the photo form.
- A clock-driven throttle.

One Dafny module models one source file:

| module | file | form |
|---|---|---|
| `WhiteboardUtils` | `geometry.dfy` | functions |
| `ItemLayoutUtils` | `layout.dfy` | functions |
| `WhiteboardView` | `view.dfy` | functions, plus class `View` for the hook's state and timer |
| `WhiteboardGestures` | `gestures.dfy` | class `PanGesture` |
| `WhiteboardItems` | `items.dfy` | list functions, plus class `ItemsState` |
| `CardFocus` | `focus.dfy` | index arithmetic, plus class `FocusState` |
| `WhiteboardFilter` | `filter.dfy` | functions, plus class `FilterState` |
| `Whiteboard` | `whiteboard.dfy` | functions |
| `ContentList` | `contentlist.dfy` | functions, an in-place insertion sort on an `array`, class `ContentListState` |
| `PlaylistForm` | `playlistform.dfy` | functions |
| `GitHubService` | `github.dfy` | functions |
| `PhotoForm` | `photoform.dfy` | functions |
| `Throttling` | `throttle.dfy` | class `Throttle` |

Shared modules:
- `Wrappers` holds `Option` and `Result`.
- `Constants` holds the window size, the scale limits and the sticky-note size. These come from `src/constants/whiteboard.ts`.
- `WhiteboardTypes` holds `Point`, `Transform`, `Position`, `Payload` and `Item`.
- `JsString` holds the JavaScript string built-ins the code relies on: `indexOf`, `includes`, `split`, ASCII `toLowerCase`, `trim`, and decimal printing of a `nat`.
- `JsArray` holds `Array.prototype.filter` and the subsequence relation.

Modelling conventions:
- Numbers are `real`.
- `Math.round(v)` is `Floor(v + 0.5)`.
- JavaScript `%` is the truncated remainder `JsRem`. Dafny's own `%` is Euclidean and is used only as the reference.
- Reads of the DOM and the browser are parameters:
  - the container's `--scale` and bounding rectangle;
  - `window.innerWidth`;
  - the mobile user-agent test;
  - `Math.random()`;
  - `Date.now()`.
- Timers are represented by handles: `View` keeps the pending timer handles and the handle in `transitionTimeoutRef`. Real time is not modelled.
- Listener registration is a boolean field.

## Model

| member | source | states |
|---|---|---|
| WhiteboardUtils.ClampScale | src/utils/whiteboardUtils.ts:4-10 | for min <= max the result lies in [min, max]; it is the scale itself when in range, min below and max above; when min > max the result is max |
| WhiteboardUtils.ClampScaleIdempotent | src/utils/whiteboardUtils.ts:4-10 | clamping twice equals clamping once, for any bounds |
| WhiteboardUtils.MinimumScale | src/utils/whiteboardUtils.ts:12-16 | the result is at least viewportWidth/3000 and at least viewportHeight/2000, and equals one of them |
| WhiteboardUtils.Boundaries | src/utils/whiteboardUtils.ts:18-39 | minX = -maxX and minY = -maxY; maxX, maxY >= 0; maxX = 0 iff 3000*scale <= viewportWidth (likewise Y with 2000); a positive maxX is half the overhang |
| WhiteboardUtils.ClampOffset | src/utils/whiteboardUtils.ts:41-52 | the offset comes back unchanged, for every scale and viewport |
| ItemLayoutUtils.CeilSqrt | src/utils/itemLayoutUtils.ts:6 | the result r is the least r with r*r >= n (Math.ceil(Math.sqrt(n)) on naturals) |
| ItemLayoutUtils.Rows | src/utils/itemLayoutUtils.ts:14 | the row count is ceil(n / columns): rows*columns >= n and (rows-1)*columns < n |
| ItemLayoutUtils.CalculateInitialLayout | src/utils/itemLayoutUtils.ts:36-73 | length and the id, type and data of every item are kept; item i gets x = startX + (i mod columns)*450 and y = startY + (i div columns)*450, z = i, not expanded, rotation 0, and the existing width/height or else 280/320 |
| ItemLayoutUtils.CalculateInitialLayoutDefault | src/utils/itemLayoutUtils.ts:4-7 | the default column count is ceil(sqrt(length)) |
| ItemLayoutUtils.GridCentred | src/utils/itemLayoutUtils.ts:13-21 | the last column's x is the negation of startX, and the last row's y is the negation of startY |
| ItemLayoutUtils.LayoutWithinGrid | src/utils/itemLayoutUtils.ts:13-52 | every laid-out item lies within [startX, -startX] x [startY, -startY] |
| ItemLayoutUtils.LayoutCellsDistinct | src/utils/itemLayoutUtils.ts:37-52 | two different items never get the same (x, y) |
| ItemLayoutUtils.NineItems | src/utils/itemLayoutUtils.ts:6-52 | with 9 items and default columns, item 0 is at (-450,-450), item 4 at (0,0), item 8 at (450,450) |
| ItemLayoutUtils.MaxZ | src/utils/itemLayoutUtils.ts:80 | the result is the z of some item and no item has a larger z |
| ItemLayoutUtils.UpdateItemZIndex | src/utils/itemLayoutUtils.ts:76-89 | same length; every item with the id gets z = max z + 1 with all else kept; every other item is unchanged |
| ItemLayoutUtils.RaisedToFront | src/utils/itemLayoutUtils.ts:80-86 | after raising a present id, its z is strictly above the z of every item with another id |
| WhiteboardView.Zoom | src/hooks/useWhiteboardView.ts:49-63 | scale' = newScale and x - x' = (fx - cx)*(newScale/scale - 1), likewise y; newScale = scale leaves the transform unchanged; a focal point at the centre keeps x and y |
| WhiteboardView.WheelZoomScale | src/hooks/useWhiteboardView.ts:66-74 | the scale is clamp(scale*1.005) when deltaY < 0 and clamp(scale*0.995) otherwise (so deltaY = 0 zooms out), always within [0.2, 4] |
| WhiteboardView.Wheel | src/hooks/useWhiteboardView.ts:65-86 | with Ctrl the wheel zooms about the pointer with WheelZoomScale; without it, x' = x - deltaX/scale, y' = y - deltaY/scale and the scale is kept |
| WhiteboardView.ZoomIn | src/hooks/useWhiteboardView.ts:88-93 | scale' = clamp(scale*1.2) within [0.2, 4]; x and y unchanged because the focal point is the centre |
| WhiteboardView.ZoomOut | src/hooks/useWhiteboardView.ts:95-99 | scale' = clamp(scale/1.2) within [0.2, 4]; x and y unchanged |
| WhiteboardView.ZoomOutNeverBelowMin | src/hooks/useWhiteboardView.ts:95-99 | from a scale >= 0.2, any number of zoom-outs stays >= 0.2 |
| WhiteboardView.ZoomOutStaysAtMin | src/hooks/useWhiteboardView.ts:95-99 | zooming out at 0.2 stays at 0.2 |
| WhiteboardView.ZoomOutSplit | src/hooks/useWhiteboardView.ts:95-99 | a + b zoom-outs equal a zoom-outs followed by b zoom-outs |
| WhiteboardView.ZoomOutFromOne | src/hooks/useWhiteboardView.ts:95-99 | from scale 1, eight zoom-outs are still above 0.2 and from the ninth on the scale is exactly 0.2 |
| WhiteboardView.View.constructor | src/hooks/useWhiteboardView.ts:9-16 | the initial transform is {0, 0, 0.6}, not transitioning, no timer, no listener |
| WhiteboardView.View.UpdateTransform | src/hooks/useWhiteboardView.ts:18-36 | stores the value, or the updater applied to the previous transform, with no clamping; an animated update sets isTransitioning and replaces the pending timer (one at most); a plain one leaves the flag and timers alone |
| WhiteboardView.View.TransitionTimerFires | src/hooks/useWhiteboardView.ts:25-27 | a pending timer firing clears isTransitioning, drops that timer and changes nothing else |
| WhiteboardView.View.HandleZoom | src/hooks/useWhiteboardView.ts:49-63 | the new transform is Zoom of the old one, with the timer rule of updateTransform |
| WhiteboardView.View.HandleWheel | src/hooks/useWhiteboardView.ts:65-86 | the new transform is Wheel of the old one, never animated |
| WhiteboardView.View.HandleZoomIn | src/hooks/useWhiteboardView.ts:88-93 | the new transform is ZoomIn of the old one |
| WhiteboardView.View.HandleZoomOut | src/hooks/useWhiteboardView.ts:95-99 | the new transform is ZoomOut of the old one |
| WhiteboardView.View.CenterView | src/hooks/useWhiteboardView.ts:101-104 | the transform becomes exactly {0, 0, 0.6}, scale included |
| WhiteboardView.View.Mount | src/hooks/useWhiteboardView.ts:106-112 | the layout effect centres the view without animation and registers the resize listener; the transition flag and timers are kept |
| WhiteboardView.View.Unmount | src/hooks/useWhiteboardView.ts:111 | the resize listener is removed; the transform, the transition flag and the timers are kept |
| WhiteboardView.View.OnWindowResize | src/hooks/useWhiteboardView.ts:109 | while the listener is registered a resize resets the transform to {0, 0, 0.6}; otherwise nothing changes |
| WhiteboardView.OnePendingTimer | src/hooks/useWhiteboardView.ts:20-28 | in every valid state at most one reset timer is pending, and it is the one in transitionTimeoutRef |
| WhiteboardGestures.PanBy | src/hooks/useWhiteboardGestures.ts:39-48 | the scale is kept and (x' - x)*scale = dx, (y' - y)*scale = dy for the pointer delta |
| WhiteboardGestures.PanComposes | src/hooks/useWhiteboardGestures.ts:39-50 | moves P0 to P1 then P1 to P2 give the same transform as one move P0 to P2 |
| WhiteboardGestures.PanReturns | src/hooks/useWhiteboardGestures.ts:39-50 | moving to a point and back restores the transform |
| WhiteboardGestures.PanGesture.constructor | src/hooks/useWhiteboardGestures.ts:12-13 | starts not dragging with last position (0, 0) |
| WhiteboardGestures.PanGesture.HandleGestureStart | src/hooks/useWhiteboardGestures.ts:15-27 | a mouse button other than 0 changes nothing; otherwise dragging starts and the pointer (first touch for touch events) is recorded |
| WhiteboardGestures.PanGesture.HandleGestureMove | src/hooks/useWhiteboardGestures.ts:29-53 | when not dragging nothing changes, whatever the event; otherwise the view is panned by PanBy from the last position to the pointer, without animation, and the pointer is recorded |
| WhiteboardGestures.PanGesture.HandleGestureEnd | src/hooks/useWhiteboardGestures.ts:55-57 | dragging stops, so later moves are no-ops until the next start |
| WhiteboardItems.ContainerScale | src/hooks/useWhiteboardItems.ts:37-43 | 1 when the container or a numeric --scale is missing, the parsed value otherwise |
| WhiteboardItems.ToCanvas | src/hooks/useWhiteboardItems.ts:49-50 | the canvas point times the scale plus the container origin gives back the client point |
| WhiteboardItems.FindItem | src/hooks/useWhiteboardItems.ts:80 | finds the first item with the id, and reports none exactly when no item has it |
| WhiteboardItems.UpdatePositions | src/hooks/useWhiteboardItems.ts:57-63 | same length; items with the id get their position mapped, all others are unchanged |
| WhiteboardItems.MoveItem | src/hooks/useWhiteboardItems.ts:57-63 | only x and y of the items with the id change, to the given point; every other item and field is unchanged |
| WhiteboardItems.ResizedSize | src/hooks/useWhiteboardItems.ts:120-121 | the size is max(50, initial + delta) with no doubling factor, hence at least 50 |
| WhiteboardItems.ResizeItem | src/hooks/useWhiteboardItems.ts:113-127 | only width and height of the items with the id change; everything else is unchanged |
| WhiteboardItems.ToggleExpand | src/hooks/useWhiteboardItems.ts:165-185 | the items with the id flip expanded and get 420x480 when expanding or 280x320 when collapsing, keeping x, y, z and rotation; other items are unchanged |
| WhiteboardItems.ToggleExpandTwice | src/hooks/useWhiteboardItems.ts:165-185 | two toggles restore expanded and give the size of that state; other items are unchanged |
| WhiteboardItems.ToggleTwiceFromCollapsed | src/hooks/useWhiteboardItems.ts:165-185 | two toggles of a collapsed card give expanded = false at 280x320 |
| WhiteboardItems.MoveResizeCommute | src/hooks/useWhiteboardItems.ts:57-63 | a move and a resize of any items commute |
| WhiteboardItems.DragReturnsToStart | src/hooks/useWhiteboardItems.ts:85-90 | with the offset recorded at drag start, a move to the start pointer puts the item back at its original position |
| WhiteboardItems.DragDelta | src/hooks/useWhiteboardItems.ts:49-56 | a pointer delta (dx, dy) moves the item by (dx/scale, dy/scale) |
| WhiteboardItems.ItemsState.constructor | src/hooks/useWhiteboardItems.ts:20-34 | no items, no drag or resize, empty refs |
| WhiteboardItems.ItemsState.SetItems | src/hooks/useWhiteboardItems.ts:20 | replaces the items and nothing else |
| WhiteboardItems.ItemsState.HandleDragStart | src/hooks/useWhiteboardItems.ts:78-100 | an unknown id changes nothing; otherwise the item is marked dragging, its pointer, position and offset = pointer - position are recorded, and the listeners are added; the items are not changed |
| WhiteboardItems.ItemsState.HandleDragMove | src/hooks/useWhiteboardItems.ts:45-64 | without an item id and offset the items are unchanged; otherwise the dragged item moves to pointer - offset |
| WhiteboardItems.ItemsState.HandleDragEnd | src/hooks/useWhiteboardItems.ts:66-76 | clears dragging, the drag ref and the listeners; items (z included) are unchanged |
| WhiteboardItems.ItemsState.HandleResizeStart | src/hooks/useWhiteboardItems.ts:130-162 | on the id being resized it disarms resizing and resets the ref to empty/0; for another known id it arms resizing with the pointer and the current size; an unknown id changes nothing |
| WhiteboardItems.ItemsState.HandleResizeMove | src/hooks/useWhiteboardItems.ts:103-128 | without an armed item the items are unchanged; otherwise that item gets ResizedSize of the initial size plus the pointer delta |
| WhiteboardItems.ItemsState.HandleExpand | src/hooks/useWhiteboardItems.ts:165-185 | the items become ToggleExpand of the old items; nothing else changes |
| WhiteboardItems.ItemsState.HandleResizeClick | src/hooks/useWhiteboardItems.ts:188-206 | exactly the same effect as HandleExpand |
| WhiteboardItems.ItemsState.WindowMouseMove | src/hooks/useWhiteboardItems.ts:45-128 | a window mouse move runs the registered drag and resize handlers in that order: the dragged card moves to pointer - offset, then the resized card gets ResizedSize of its initial size plus the pointer delta; with none registered the items are unchanged; listeners and drag and resize state are kept |
| WhiteboardItems.ItemsState.WindowMouseUp | src/hooks/useWhiteboardItems.ts:99 | a window mouse up ends the drag and leaves resizing armed |
| CardFocus.JsRem | src/hooks/useCardFocus.ts:29 | JavaScript's remainder: for a >= 0 it is a mod n in [0, n); for a < 0 it is -((-a) mod n) in (-n, 0] |
| CardFocus.ShiftedRemainder | src/hooks/useCardFocus.ts:29 | ((i % n) + n) % n with truncated % equals the mathematical i mod n |
| CardFocus.NormalizeIndex | src/hooks/useCardFocus.ts:29 | the stored index lies in [0, n) and is congruent to i mod n |
| CardFocus.NormalizeInRange | src/hooks/useCardFocus.ts:29 | an index already in [0, n) is kept |
| CardFocus.NextTimesAdvances | src/hooks/useCardFocus.ts:82-84 | k presses of next from i give (i + k) mod n |
| CardFocus.FullCycle | src/hooks/useCardFocus.ts:82-84 | n presses of next return to the starting index |
| CardFocus.PrevUndoesNext | src/hooks/useCardFocus.ts:78-84 | prev undoes next and next undoes prev |
| CardFocus.JsRound | src/hooks/useCardFocus.ts:55-56 | Math.round(v) lies in (v - 0.5, v + 0.5] |
| CardFocus.RoundToHundredth | src/hooks/useCardFocus.ts:55-56 | round(v*100)/100 lies in (v - 0.005, v + 0.005] |
| CardFocus.FocusTransform | src/hooks/useCardFocus.ts:46-72 | the scale is the zoom level and x, y are within 0.005 of -cardX*zoom and -cardY*zoom |
| CardFocus.KeyActionOf | src/hooks/useCardFocus.ts:87-93 | ArrowLeft maps to prev and ArrowRight to next; every other key to nothing |
| CardFocus.FocusState.constructor | src/hooks/useCardFocus.ts:16 | the index starts at 0 with no key listener |
| CardFocus.FocusState.FocusOnCard | src/hooks/useCardFocus.ts:27-76 | with no items nothing changes; otherwise the index becomes the normalised index and the view gets an animated update to FocusTransform of that card, at 1.2 on mobile or 1.5 otherwise |
| CardFocus.FocusState.OnFocusPrev | src/hooks/useCardFocus.ts:78-80 | with no cards nothing changes; otherwise the index steps back cyclically and the view gets an animated update to FocusTransform of that card |
| CardFocus.FocusState.OnFocusNext | src/hooks/useCardFocus.ts:82-84 | with no cards nothing changes; otherwise the index steps forward cyclically and the view gets an animated update to FocusTransform of that card |
| CardFocus.FocusState.Mount | src/hooks/useCardFocus.ts:95 | registers the key listener |
| CardFocus.FocusState.Unmount | src/hooks/useCardFocus.ts:96 | removes the key listener |
| CardFocus.FocusState.WindowKeyDown | src/hooks/useCardFocus.ts:86-97 | with the listener registered, ArrowLeft steps back and ArrowRight forward, each with an animated update to FocusTransform of the new card; other keys, no listener or no items change nothing |
| WhiteboardFilter.NextFilter | src/hooks/useWhiteboardFilter.ts:8-16 | the result is always one of the four filters and never the argument; any unknown value goes to all |
| WhiteboardFilter.CycleOrder | src/hooks/useWhiteboardFilter.ts:10-13 | the cycle runs all, then album, then snip, then playlist, then back to all |
| WhiteboardFilter.FourToggles | src/hooks/useWhiteboardFilter.ts:8-16 | four toggles return a filter to itself |
| WhiteboardFilter.CycleLengthFour | src/hooks/useWhiteboardFilter.ts:8-16 | one, two or three toggles never return to the start, so the cycle has length four |
| WhiteboardFilter.FilterItems | src/hooks/useWhiteboardFilter.ts:19-21 | 'all' is the identity; another filter keeps exactly the items of that type with their multiplicities, in order, as a subsequence |
| JsArray.Filter | src/hooks/useWhiteboardFilter.ts:20 | Array.prototype.filter: never longer than the input, and every kept element passes the test (FilterCounts and FilterSubsequence give multiplicities and order) |
| WhiteboardFilter.FilterState.constructor | src/hooks/useWhiteboardFilter.ts:5 | the filter starts at 'all' |
| WhiteboardFilter.FilterState.ToggleFilter | src/hooks/useWhiteboardFilter.ts:8-16 | the filter becomes NextFilter of the old one |
| WhiteboardFilter.FilterState.Visible | src/hooks/useWhiteboardFilter.ts:19-21 | returns FilterItems under the current filter |
| Whiteboard.RandomLayout | src/components/Whiteboard.tsx:17-37 | for draws in [0, 1), length and id/type/data are kept; card k sits at x = draw.x * 2720 and y = draw.y * 1680, hence in [0, 2720) x [0, 1680), with size 280x320, z = k, not expanded and the old rotation dropped |
| Whiteboard.DrawsFit | src/components/Whiteboard.tsx:18-23 | a draw in [0, 1) scaled by 2720 or 1680 stays in [0, 2720) or [0, 1680) |
| Whiteboard.CardsOf | src/components/Whiteboard.tsx:80-97 | one card per payload, id kind + "-" + slug, with that type and payload |
| Whiteboard.InitialItems | src/components/Whiteboard.tsx:78-98 | albums, then snips, then playlists, with ids album-, snip- and playlist- + slug; length is the sum of the three counts |
| Whiteboard.FilterInitialAlbums | src/components/Whiteboard.tsx:78-98 | the album filter of the initial items is exactly the album cards, in order |
| Whiteboard.FocusedCardIdAsWritten | src/components/Whiteboard.tsx:115-117 | empty list gives undefined; an index in range gives that card's id; a non-empty list with the index out of range fails, like reading .id of undefined |
| Whiteboard.StaleIndexAfterFilterCrashes | src/components/Whiteboard.tsx:115-117 | focusing the fifth of [album x4, snip] and toggling once, to the album filter, leaves index 4 over the four album cards, and the focused-card lookup fails |
| Whiteboard.FocusedCardId | src/components/Whiteboard.tsx:117 | a card id exactly when the list is non-empty, always the id of a listed card, and the same as the written code whenever its index is in range |
| Whiteboard.StartTransform | src/components/Whiteboard.tsx:121-126 | the start-up transform is at the origin with a scale in [0.2, 4]: the minimum 0.2 below width 768, otherwise the centred view at 0.6 |
| Whiteboard.MountView | src/components/Whiteboard.tsx:120-129 | after mounting, the transform is {0, 0, 0.2} below width 768 and {0, 0, 0.6} otherwise, never animated, with the resize listener registered |
| ContentList.NextSortConfig | src/components/admin/ContentList.tsx:55-60 | the key becomes k, and the direction is desc iff the old config was k ascending |
| ContentList.SortToggleTwice | src/components/admin/ContentList.tsx:55-60 | sorting by the ascending key twice returns to ascending |
| ContentList.SearchFilter | src/components/admin/ContentList.tsx:19-36 | an empty term keeps every item; otherwise exactly the items whose lower-cased title, description, space-joined tags or id contains the lower-cased term are kept, with multiplicities and order |
| ContentList.StrLessIrreflexive | src/components/admin/ContentList.tsx:43-46 | string < is irreflexive |
| ContentList.StrLessAsymmetric | src/components/admin/ContentList.tsx:43-46 | string < is asymmetric |
| ContentList.StrLessTransitive | src/components/admin/ContentList.tsx:43-46 | string < is transitive |
| ContentList.StrLessTotal | src/components/admin/ContentList.tsx:43-46 | distinct strings are ordered one way or the other |
| ContentList.Compare | src/components/admin/ContentList.tsx:39-50 | the comparator returns -1, 0 or 1, and returns 0 iff neither value is less than the other |
| ContentList.Comparator | src/components/admin/ContentList.tsx:39-50 | the function handed to sort answers -1, 0 or 1, and swapping its arguments negates the answer |
| ContentList.CompareAntisymmetric | src/components/admin/ContentList.tsx:39-50 | compare(a, b) = -compare(b, a) |
| ContentList.CompareTransitive | src/components/admin/ContentList.tsx:39-50 | when all three items have the key, compare <= 0 is transitive |
| ContentList.AdjacentOrderedIsSorted | src/components/admin/ContentList.tsx:39-50 | when every item has the key, pairwise-adjacent order implies full order in the chosen direction |
| ContentList.SwapDown | src/components/admin/ContentList.tsx:39 | swaps two neighbours in place, a permutation |
| ContentList.SwapKeepsInserting | src/components/admin/ContentList.tsx:39 | one swap of the element being inserted keeps the insertion invariant |
| ContentList.InsertingDone | src/components/admin/ContentList.tsx:39 | when the inserted element is in place, the prefix is ordered |
| ContentList.InsertStep | src/components/admin/ContentList.tsx:39 | inserting element i into an ordered prefix orders the prefix one longer, as a permutation |
| ContentList.InsertionSort | src/components/admin/ContentList.tsx:39-50 | the array ends ordered by the comparator and is a permutation of its old contents |
| ContentList.SortEntries | src/components/admin/ContentList.tsx:39-50 | the array ends ordered by the sort config and is a permutation |
| ContentList.Recompute | src/components/admin/ContentList.tsx:19-53 | the shown list is a permutation of the search result, ordered by the sort config, fully sorted when every item has the key, and never longer than the input |
| ContentList.ContentListState.constructor | src/components/admin/ContentList.tsx:9-17 | an empty term, sort pubDatetime descending, and the unfiltered items shown |
| ContentList.ContentListState.Refresh | src/components/admin/ContentList.tsx:19-53 | the shown list is the ordered permutation of the search result, at most the total count |
| ContentList.ContentListState.SetSearchTerm | src/components/admin/ContentList.tsx:9-53 | stores the term and recomputes the shown list |
| ContentList.ContentListState.HandleSort | src/components/admin/ContentList.tsx:55-60 | the config becomes NextSortConfig of the old one and the shown list is recomputed under it |
| JsString.IndexOf | src/components/admin/PlaylistForm.tsx:51 | the first position where the pattern occurs, or none iff it occurs nowhere |
| JsString.IncludesChar | src/components/admin/PhotoForm.tsx:39 | includes of a one-character string is membership of that character |
| JsString.Split | src/components/admin/PlaylistForm.tsx:52 | at least one piece, and more than one iff the separator occurs |
| JsString.SplitPiecesExclude | src/components/admin/PlaylistForm.tsx:52 | no piece contains the separator |
| JsString.SplitJoin | src/components/admin/PlaylistForm.tsx:52 | joining the pieces with the separator gives back the string |
| JsString.SplitFirst | src/components/admin/PlaylistForm.tsx:55 | the first piece is the text before the first separator |
| JsString.SplitSecond | src/components/admin/PhotoForm.tsx:40 | the second piece is the text after the first separator up to the next one |
| JsString.SplitLast | src/components/admin/PhotoForm.tsx:74 | the last piece of a split on a character is the text after its last occurrence |
| JsString.AfterLast | src/components/admin/PlaylistForm.tsx:64-66 | a suffix without the character, preceded by it unless it is the whole string |
| JsString.SplitCharCount | src/components/admin/PlaylistForm.tsx:102 | splitting on a character gives one more piece than it has occurrences |
| JsString.ToLower | src/components/admin/ContentList.tsx:23 | the same length, each character lower-cased (ASCII) |
| JsString.TrimStart | src/components/admin/PlaylistForm.tsx:102 | a suffix of the input that does not start with whitespace, where everything cut off is whitespace |
| JsString.TrimEnd | src/components/admin/PlaylistForm.tsx:102 | a prefix of the input that does not end with whitespace, where everything cut off is whitespace |
| JsString.Trim | src/components/admin/PlaylistForm.tsx:102 | a contiguous part of the input that neither starts nor ends with whitespace, with only whitespace cut off before and after it |
| JsString.NatToString | src/utils/githubDirectService.ts:108 | the decimal text of n: non-empty digits, no leading zero, whose decimal value is n |
| PlaylistForm.ExtractPlaylistId | src/components/admin/PlaylistForm.tsx:46-74 | a URL without '/playlist/' or a platform other than spotify/apple gives null; a result never contains '?' |
| PlaylistForm.SpotifyId | src/components/admin/PlaylistForm.tsx:48-57 | Spotify gives the second '/playlist/' piece cut at the first '?' |
| PlaylistForm.AppleId | src/components/admin/PlaylistForm.tsx:58-68 | Apple gives the last '/'-segment of the second '/playlist/' piece, cut at '?' |
| PlaylistForm.SpotifyUrl | src/components/admin/PlaylistForm.tsx:48-57 | host + '/playlist/' + id gives id for a host without '/playlist/' and an id without '/' or '?' |
| PlaylistForm.AppleUrl | src/components/admin/PlaylistForm.tsx:58-68 | host + '/playlist/' + name + '/' + id gives id |
| PlaylistForm.SpotifyExample | src/components/admin/PlaylistForm.tsx:50 | the URL in the comment gives 37i9dQZF1DX0XUsuxWHRQd |
| PlaylistForm.AppleExample | src/components/admin/PlaylistForm.tsx:60 | the URL in the comment gives pl.f4d106fed2bd41149aaacabb233eb5eb |
| PlaylistForm.EmptySegment | src/components/admin/PlaylistForm.tsx:51-56 | a URL ending in its only '/playlist/' extracts the empty id |
| PlaylistForm.CheckPlaylistId | src/components/admin/PlaylistForm.tsx:96-99 | submit goes on iff an id was extracted and is non-empty, with that id; otherwise it raises the extraction error |
| PlaylistForm.ParseTags | src/components/admin/PlaylistForm.tsx:102 | an empty string gives no tags; otherwise one trimmed entry per comma-separated piece, commas + 1 of them |
| GitHubService.ReplaceRuns | src/utils/githubDirectService.ts:162 | every character is in [a-z0-9.] or '-', there are no two '-' in a row, a leading allowed character is kept, and only the empty string gives the empty string |
| GitHubService.ReplaceRunsSplit | src/utils/githubDirectService.ts:162 | a maximal run of characters outside [a-z0-9.] between two parts becomes exactly one '-' between their replacements |
| GitHubService.CollapseDashes | src/utils/githubDirectService.ts:163 | the result has no '--', is no longer than the input and starts with the same character |
| GitHubService.CollapseNoop | src/utils/githubDirectService.ts:163 | collapsing dash runs leaves a string without '--' unchanged |
| GitHubService.CollapseStepIsNoop | src/utils/githubDirectService.ts:161-164 | the dash-collapsing step never changes the slug, because the run replacement already leaves no '--' |
| GitHubService.StripDashes | src/utils/githubDirectService.ts:164 | exactly one leading '-' and one trailing '-' are removed, and nothing else; a lone '-' goes once |
| GitHubService.StripEdges | src/utils/githubDirectService.ts:164 | on a string without '--', the result neither starts nor ends with '-' and has no '--' |
| GitHubService.Slug | src/utils/githubDirectService.ts:161-164 | the slug uses only [a-z0-9.-], has no '--', neither starts nor ends with '-', and keeps exactly the [a-z0-9.] characters of the lower-cased name, in order |
| GitHubService.SlugIdempotent | src/utils/githubDirectService.ts:161-164 | slugging a slug gives it back |
| GitHubService.ImageUpload | src/utils/githubDirectService.ts:161-185 | the repository path is "public" + the returned URL /assets/photos/album/slug, and the commit message names the slug and the album |
| GitHubService.DropLast | src/utils/githubDirectService.ts:126 | slice(0, -1): the string without its last character |
| GitHubService.CreateContent | src/utils/githubDirectService.ts:100-146 | an empty id becomes the timestamp; the path is src/content/type/id.json; the messages read "Add new" / "Successfully created" + type minus its last character + ": " + title, or the id when the title is empty |
| GitHubService.ContentListing | src/utils/githubDirectService.ts:212-258 | 404 gives success with no files; another error status gives the API error message; otherwise exactly the '.json' entries of type file, with multiplicities, in order |
| PhotoForm.NatToStringInjective | src/components/admin/PhotoForm.tsx:46 | distinct indices print differently, because each decimal text denotes its own number |
| PhotoForm.Spread | src/components/admin/PhotoForm.tsx:46 | spreading an object gives its fields, undefined gives none, and a string gives one field per character index |
| PhotoForm.CharFields | src/components/admin/PhotoForm.tsx:46 | the fields of a spread string: exactly the keys "0".."n-1", each with its character |
| PhotoForm.HandleChange | src/components/admin/PhotoForm.tsx:36-68 | a name without '.' sets that field; a dotted name sets field child inside parent, from the first two segments; the key set grows by at most the first segment |
| PhotoForm.NestedBranchUnreachable | src/components/admin/PhotoForm.tsx:40-41 | the second piece of a split on '.' never contains '.', so the nested branch never runs |
| PhotoForm.ChangeKeepsOthers | src/components/admin/PhotoForm.tsx:43-66 | every field other than the first segment of the name is unchanged |
| PhotoForm.ThreePieceName | src/components/admin/PhotoForm.tsx:39-61 | a name p.c.rest updates only field c of p; the rest is ignored |
| PhotoForm.SettingsApertureReplacesSettings | src/components/admin/PhotoForm.tsx:39-61 | metadata.settings.aperture replaces the metadata.settings object by the typed string, so the other camera settings are lost |
| PhotoForm.HandleChangeNested | src/components/admin/PhotoForm.tsx:39-61 | the intended update: names with at most one dot behave as written; p.n.c sets c inside n inside p, keeping every other field at all three levels |
| PhotoForm.NestedNameKeepsSiblings | src/components/admin/PhotoForm.tsx:41-52 | with the intended update, p.n.c leaves the fields of p.n as they were except c, which holds the value |
| PhotoForm.SettingsApertureKeepsSettings | src/components/admin/PhotoForm.tsx:41-52 | with the intended update, metadata.settings.aperture sets the aperture and keeps the other camera settings |
| PhotoForm.FilenameFromUrl | src/components/admin/PhotoForm.tsx:74 | the text after the last '/', or uploaded-image when that is empty; never empty and without '/' |
| PhotoForm.LastPieceIsAfterLastSlash | src/components/admin/PhotoForm.tsx:74 | the same as the popped last piece of split('/') with the default for an empty piece |
| PhotoForm.CapitalizeWords | src/components/admin/PhotoForm.tsx:82 | the same length and letters up to case; a word character at a word start is not lower-case; every other character is unchanged |
| PhotoForm.CapitalizeIdempotent | src/components/admin/PhotoForm.tsx:82 | capitalising twice equals capitalising once |
| PhotoForm.SpacedStem | src/components/admin/PhotoForm.tsx:79-81 | the text before the first '.', with every '-' and '_' turned into a space |
| PhotoForm.SuggestTitle | src/components/admin/PhotoForm.tsx:79-82 | built from the text before the first '.' with '-' and '_' as spaces: the same length, no '-', '_' or '.', a word-start character is upper-cased and every other character is unchanged |
| PhotoForm.ImageUploaded | src/components/admin/PhotoForm.tsx:71-89 | reports the file name; the title is suggested only when the current title is empty, otherwise the form is unchanged |
| PhotoForm.SubmitError | src/components/admin/PhotoForm.tsx:91-102 | a missing image is reported before a missing album; submit proceeds iff both are present |
| Throttling.SpacedApart | src/utils/initializeWindowDimensions.ts:49-51 | any two accepted calls i <= j are at least (j - i)*delay apart |
| Throttling.IncreasingTimes | src/utils/initializeWindowDimensions.ts:49-51 | for a positive delay, accepted call times strictly increase |
| Throttling.Throttle.constructor | src/utils/initializeWindowDimensions.ts:45-47 | lastCall starts at 0 with no accepted calls |
| Throttling.Throttle.Call | src/utils/initializeWindowDimensions.ts:48-53 | the call runs iff now - lastCall >= delay; a run sets lastCall to now and is recorded, a rejected call leaves lastCall unchanged |

## Left out

- DOM, browser and React: `document.querySelector`, `getComputedStyle`, `getBoundingClientRect`, `navigator.userAgent`, `window.innerWidth` and `Math.random()` become parameters. Re-rendering, stale closures and `useCallback` dependency lists are not modelled; each hook is one object with synchronous methods.
- The 300 ms transition timer: only the flag and the single pending handle are modelled, not the delay.
- The 2-second delayed `focusOnCard(0)` on narrow windows (`src/components/Whiteboard.tsx:132-139`) is a timer effect and is not modelled.
- The container centre (`src/hooks/useWhiteboardView.ts:40-47`) is a parameter.
- WhiteboardView.Zoom: states only the update formula. It does not claim that the focal point stays fixed, because under the CSS transform the formula keeps the focal point fixed only when the pan is (0, 0).
- WhiteboardView.Zoom, WhiteboardView.Wheel, WhiteboardView.ZoomIn, WhiteboardView.ZoomOut: require a non-zero scale. JavaScript would divide by zero into Infinity or NaN, which `real` does not represent.
- WhiteboardGestures.PanBy: requires a non-zero scale for the same reason.
- WhiteboardItems.ToCanvas: requires a non-zero container scale for the same reason.
- WhiteboardGestures.PanGesture.HandleGestureStart: requires a touch event to carry at least one touch. With none, JavaScript throws on `touches[0]`.
- WhiteboardGestures.PanGesture.HandleGestureMove: requires a touch event to carry a touch only while dragging, for the same reason; when not dragging the source returns before reading it.
- ItemLayoutUtils.UpdateItemZIndex: for an empty list it returns the empty list. In JavaScript `Math.max()` of no values is -Infinity, and mapping the empty list also gives the empty list.
- ItemLayoutUtils.CalculateInitialLayout: requires at least one column unless the list is empty. With zero columns JavaScript computes NaN positions.
- Floating point: numbers are exact reals. Rounding errors of `scale * 1.2`, `/ 1.2` and the wheel factors are not modelled.
- Characters:
  - `toLowerCase`, `toUpperCase`, `\w` and `\b` are modelled on ASCII only.
  - String `<` compares code points of `seq<char>`, not UTF-16 code units. There is no distinction between different value types in `data[key]`: all keys are strings or missing.
- ContentList.SortEntries: `Array.prototype.sort` is modelled by an insertion sort with the same comparator. The result is ordered between neighbours. A missing key compares equal to every value, so a total order is proved only when every item has the key (`AdjacentOrderedIsSorted`). JavaScript's exact order for inconsistent comparators is not modelled.
- Throttling.Throttle.Call: `func(...args)` is not modelled; the method reports whether it would run. `Date.now()` is the parameter `now`. The rest of `src/utils/initializeWindowDimensions.ts` is not part of this model.
- githubDirectService.ts: the network calls, base64 encoding, token handling, the per-file content fetches after the listing and `parseInt`-style field handling are left out. CreateContent keeps only the id, path and messages, not the serialised JSON body.
- PhotoForm.tsx and PlaylistForm.tsx: the submit paths' upload and commit calls, and the data objects built for them, are left out. Only the validation order and the extracted values are modelled.
- The other admin forms, `src/utils/cryptoUtil.ts`, `ClientAdminApp.tsx`, image processing, the performance utilities and the rendering components are not part of this model.
- The grid layout of `src/utils/itemLayoutUtils.ts` is modelled, but the page wires in the random layout of `src/components/Whiteboard.tsx:17-37`, which is modelled separately.

## Findings

| source | as written | input that shows it | evidently intended | confidence | as-written member | corrected member |
|---|---|---|---|---|---|---|
| src/components/Whiteboard.tsx:116-117 | `filteredItems[currentIndex].id`, where `currentIndex` survives a filter change that shrinks the list | items [album, album, album, album, snip]: focus the fifth card (index 4) under 'all', then toggle the filter once, to 'album'; the list has four cards and `filteredItems[4]` is undefined, so reading `.id` throws | normalise the index against the current list, as `focusOnCard` does | not executed | Whiteboard.FocusedCardIdAsWritten, Whiteboard.StaleIndexAfterFilterCrashes | Whiteboard.FocusedCardId |
| src/components/admin/PhotoForm.tsx:39-61 | `const [parent, child] = name.split('.')`, then `child.includes('.')` chooses the two-level branch; `child` is a piece of a split on '.', so it never contains '.' and the branch at lines 41-52 never runs | the camera-settings input named `metadata.settings.aperture` (PhotoForm.tsx:317; likewise `shutterSpeed`, `iso`, `focalLength`): typing "f/2.8" sets `metadata.settings` to the string "f/2.8", dropping the other settings, and submit (lines 121-124) then reads `undefined` for each of them | split off only the first segment, so `settings.aperture` reaches the nested branch and sets `aperture` inside `metadata.settings`, keeping its siblings | not executed | PhotoForm.NestedBranchUnreachable, PhotoForm.SettingsApertureReplacesSettings | PhotoForm.HandleChangeNested, PhotoForm.SettingsApertureKeepsSettings |
