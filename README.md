# Note store, local storage and drag-and-drop reordering

A Dafny model of the data core of a small block-based note editor:

- **The note store** (`NoteStore`, module `Notes`) holds the pages of a page
  tree, the content blocks of every page, the current page and the selected
  block. Each mutation (create, update or delete a page or a block, set the
  current page, reorder the blocks of a page) changes the in-memory lists and
  writes through to the storage. The two read queries (`PageBlocks`,
  `ChildPages`, module `Queries`) filter a list and sort it stably by
  position.
- **The storage** (`StorageService`, module `Storage`) has four local-storage
  slots, `notion_pages`, `notion_blocks`, `notion_current_page` and
  `notion_gemini_api_key`, each read and rewritten whole. Saving is an upsert
  by id that refreshes `updatedAt` on a replacement. Deleting a page
  cascades one level. Deleting a block also removes the blocks that name it
  as their parent block. Reordering folds over a list of ids.
- **The drag-and-drop hook** (`DragAndDrop`, module `Drag`) is a gesture
  state machine over `draggedItem`, `dragOverIndex` and an enter/leave
  counter. A drop moves one id from the source index to the target index
  with the two `Array.prototype.splice` calls, including JavaScript's index
  clamping. The highlight class of a hovered item is a pure decision over
  that state.
- The records (`Page`, `Block`, `BlockContent`, the eight block types) and
  the `Partial<…>` updates with their shallow spread are in module `Types`.
  Module `Seqs` holds the array operations the code relies on:
  - `filter`;
  - the stable `sort` by a numeric key;
  - first-match `find` and `findIndex`.
- Module `NotesScenarios` works through concrete cases of the rules above.

The model follows the code, including behaviour that looks accidental:

- Deleting a page removes only its direct children. Grandchildren stay with
  a dangling `parentId`. The blocks of the removed children stay too.
- When the deleted page was current, the fallback current page is taken from
  the list *before* the deletion. It can therefore be a child page that the
  same call removed. The new current page is not written to storage.
- Positions are never renumbered. After a delete, an appended block can
  repeat an existing position.
- The reorder list is not checked against the page; the page id is unused.
  An id listed twice ends at its last index.
- The store's `deleteBlock` removes only the block itself. The storage's
  `deleteBlock` also removes blocks whose `parentBlockId` names it.
- The storage's reorder stamps `updatedAt`; the store's reorder does not.

Two consequences of the code that the contracts state as they are:

- Deleting a page keeps the blocks of the child pages it removes
  (`src/services/storage.ts:29`, `src/context/NotesContext.tsx:97`).
- Positions can repeat, so `getPageBlocks` and `getChildPages` are ordered
  non-strictly, and records with equal positions keep their list order.

Ids (`crypto.randomUUID`) and timestamps (`new Date().toISOString()`) are
parameters of the operations (`id`, `now`).

## Model

| member | source | states |
|---|---|---|
| Types.MergePage | src/context/NotesContext.tsx:80 | the merged page keeps its id and carries `updatedAt == now`; each field the update mentions takes the update's value, each other field keeps the page's; an empty update only re-stamps the page |
| Types.MergeBlock | src/context/NotesContext.tsx:141 | the merged block keeps its id and carries `updatedAt == now`; each field the update mentions takes the update's value (`content` as a whole), each other field keeps the block's; an empty update only re-stamps the block |
| Types.MergePageIdempotent | src/context/NotesContext.tsx:78-82 | applying the same page update twice equals applying it once |
| Types.MergeBlockIdempotent | src/context/NotesContext.tsx:139-143 | applying the same block update twice equals applying it once |
| Types.ClearCover | src/context/NotesContext.tsx:80 | an update that sets `cover` to `undefined` clears the cover and keeps every other field |
| Seqs.FindIndex | src/services/storage.ts:12 | the loop returns the first index holding the id, or -1 when there is none |
| Seqs.SortByStable | src/context/NotesContext.tsx:177 | the sort keeps the input order among elements with the same key |
| Queries.PageBlocks | src/context/NotesContext.tsx:173-180 | the result holds exactly the blocks of the page, as a permutation of the filtered list, ordered by non-decreasing position |
| Queries.PageBlocksStable | src/context/NotesContext.tsx:175-177 | blocks of the page that share a position keep their order in the block list |
| Queries.ChildPages | src/context/NotesContext.tsx:182-189 | the result holds exactly the pages with that parent (root pages for `None`), as a permutation of the filtered list, ordered by non-decreasing position |
| Queries.ChildPagesStable | src/context/NotesContext.tsx:184-186 | sibling pages that share a position keep their order in the page list |
| Storage.Upsert | src/services/storage.ts:10-21 | for a known id, the first record with it becomes the re-stamped record and every other record is unchanged; an unknown id appends the record as given; the id is present afterwards |
| Storage.Find | src/context/NotesContext.tsx:83 | `find` by id returns `None` exactly when no record has the id, otherwise the first record of the list with that id |
| Storage.UpsertRoundTrip | src/services/storage.ts:10-21 | with distinct ids before a save, ids stay distinct, the saved id occurs once, and reading it back gives the saved record, re-stamped when it replaced one |
| Storage.SetPosition | src/services/storage.ts:70-74 | one iteration of the reorder loop: the first block with the id gets the position (and the stamp), every other block is unchanged; an unknown id changes nothing |
| Storage.Reposition | src/services/storage.ts:69-75 | the whole loop as a fold of those iterations over the ids, first to last; it keeps the length and the id list, and the empty list changes nothing |
| Storage.ApplyPositions | src/context/NotesContext.tsx:162-168 | the loop shared by both reorders (also `src/services/storage.ts:69-75`): a copy of the blocks, scanned with `find` per listed id, equals the fold `Reposition` |
| Storage.Repositioned | src/services/storage.ts:72-73 | only `position` changes, plus `updatedAt` when a stamp is given |
| Storage.RepositionAt | src/services/storage.ts:69-75 | after the reorder loop, the first block with a listed id holds the last index of that id in the list; every other block is unchanged |
| Storage.RepositionIdempotent | src/services/storage.ts:69-75 | reordering twice with the same list equals reordering once |
| Storage.StorageService.GetPages | src/services/storage.ts:5-8 | returns the pages slot; an empty slot reads as the empty list |
| Storage.StorageService.SavePage | src/services/storage.ts:10-21 | the pages slot becomes the upsert of the page, with `updatedAt := now` on a replacement; the length grows by one exactly for a new id; other slots unchanged |
| Storage.StorageService.DeletePage | src/services/storage.ts:23-31 | keeps exactly the pages that are neither the page nor its direct children, and exactly the blocks not on the page, in order |
| Storage.StorageService.GetBlocks | src/services/storage.ts:33-44 | a non-empty page id gives that page's blocks sorted by position; no id or the empty string gives every stored block |
| Storage.StorageService.SaveBlock | src/services/storage.ts:46-57 | the blocks slot becomes the upsert of the block, re-stamped on a replacement; the length grows by one exactly for a new id |
| Storage.StorageService.DeleteBlock | src/services/storage.ts:59-64 | keeps exactly the blocks that are neither the block nor one whose parent block it is |
| Storage.StorageService.UpdateBlockPositions | src/services/storage.ts:66-78 | the blocks slot becomes the reorder fold with `updatedAt := now`, computed by the shared loop |
| Storage.StorageService.GetCurrentPageId | src/services/storage.ts:80-82 | returns the current-page slot |
| Storage.StorageService.SetCurrentPageId | src/services/storage.ts:84-86 | the current-page slot holds the id; the other slots are unchanged |
| Storage.StorageService.GetGeminiApiKey | src/services/storage.ts:88-90 | returns the API-key slot |
| Storage.StorageService.SetGeminiApiKey | src/services/storage.ts:92-94 | the API-key slot holds the key; the other slots are unchanged |
| Notes.UpdateWhere | src/context/NotesContext.tsx:78-82 | records with the id are replaced by the merge and the others kept; a missing id changes nothing; ids are preserved when the merge keeps them |
| Notes.Fallback | src/context/NotesContext.tsx:99-104 | the fallback is a listed page other than the deleted one, and is `None` exactly when every listed page is the deleted one |
| Notes.FallbackIsFirstOther | src/context/NotesContext.tsx:100-102 | filter-then-first equals the first page, scanning from the front, whose id differs |
| Notes.CreatePageKeepsDense | src/context/NotesContext.tsx:63 | siblings numbered 0..n-1 stay dense after a page is appended with position n; other sibling groups are unchanged |
| Notes.SiblingCount | src/context/NotesContext.tsx:63 | the count used for the new page's position equals the length of `getChildPages` for that parent |
| Notes.DeleteBlockAgreement | src/services/storage.ts:59-64 | the storage's and the store's `deleteBlock` agree when no block names the deleted one as parent block, and differ when another block does |
| Notes.NoteStore.constructor | src/context/NotesContext.tsx:34-37 | the store starts empty, with no current page and no selection |
| Notes.NoteStore.CreatePage | src/context/NotesContext.tsx:57-74 | appends a page whose position is the number of existing siblings, with both timestamps `now`; ids stay distinct; storage gets the upsert |
| Notes.NoteStore.UpdatePage | src/context/NotesContext.tsx:76-89 | merges the update into the page with that id; a missing id leaves memory and storage unchanged; otherwise storage gets the merged page |
| Notes.NoteStore.DeletePage | src/context/NotesContext.tsx:91-107 | one-level cascade in memory and in storage; a deleted current page falls back to the first other page of the old list; the stored current page is unchanged |
| Notes.NoteStore.SetCurrentPage | src/context/NotesContext.tsx:109-113 | the page becomes current in memory and storage, and the selection is cleared |
| Notes.NoteStore.SetSelectedBlock | src/context/NotesContext.tsx:206 | sets the selection only |
| Notes.NoteStore.CreateBlock | src/context/NotesContext.tsx:115-134 | appends an empty block at the given position, or after the page's existing blocks (their count); ids stay distinct; storage gets the upsert |
| Notes.NoteStore.UpdateBlock | src/context/NotesContext.tsx:136-152 | merges the update into the block with that id; a missing id leaves memory and storage unchanged; otherwise storage gets the merged block |
| Notes.NoteStore.DeleteBlock | src/context/NotesContext.tsx:154-157 | memory drops only the block with the id; storage also drops the blocks whose parent block it is |
| Notes.NoteStore.ReorderBlocks | src/context/NotesContext.tsx:159-171 | memory gets the reorder fold without re-stamping, storage with `updatedAt := now`; ids stay distinct |
| NotesScenarios.RootAndChildQueries | src/context/NotesContext.tsx:182-189 | with a root page and its child, the root query lists only the root and the query under it only the child |
| NotesScenarios.DeletePageIsOneLevel | src/services/storage.ts:23-31 | deleting the top of a three-page chain keeps the grandchild with a dangling parent id, and keeps the child's blocks |
| NotesScenarios.FallbackCanBeRemovedChild | src/context/NotesContext.tsx:94-104 | the fallback current page can be a child that the same deletion removed |
| NotesScenarios.AppendAfterDeleteCollides | src/context/NotesContext.tsx:117-123 | after the middle of three blocks is deleted, a new block gets the position the last block already holds |
| NotesScenarios.PageBlockCount | src/context/NotesContext.tsx:173-180 | the page query returns as many blocks as the filter keeps |
| NotesScenarios.ReorderThreePositions | src/context/NotesContext.tsx:159-171 | reordering three blocks as [z, x, y] gives positions 0, 1, 2 to z, x, y whatever positions they had |
| Drag.SpliceStart | src/hooks/useDragAndDrop.ts:63-64 | the splice start is in range, equals an in-range start, clamps large starts to the length, and counts negative starts from the end |
| Drag.Without | src/hooks/useDragAndDrop.ts:63 | removing one element shifts the later elements down by one and keeps the earlier ones |
| Drag.Move | src/hooks/useDragAndDrop.ts:62-66 | a drop that does not throw yields a permutation of the ids of the same length |
| Drag.MoveThrows | src/hooks/useDragAndDrop.ts:62-66 | the drop throws exactly when the list is empty or the source index is at or past its end |
| Drag.MoveInRange | src/hooks/useDragAndDrop.ts:62-66 | with both indices in range, the dragged id lands at the target and the other ids keep their relative order |
| Drag.MoveSame | src/hooks/useDragAndDrop.ts:62-66 | dropping onto the source index hands back the unchanged order |
| Drag.MoveInverse | src/hooks/useDragAndDrop.ts:62-66 | moving the item back from the target to the source restores the order |
| Drag.MoveOutOfRangeTargets | src/hooks/useDragAndDrop.ts:64 | a target past the end puts the id last; a target of -1 puts it before the last remaining id |
| Drag.NonEmpty | src/hooks/useDragAndDrop.ts:94 | keeps exactly the non-empty class names |
| Drag.Join | src/hooks/useDragAndDrop.ts:94 | joining one name gives that name; joining two puts the separator between them |
| Drag.DragAndDrop.constructor | src/hooks/useDragAndDrop.ts:12-14 | the hook starts idle |
| Drag.DragAndDrop.HandleDragStart | src/hooks/useDragAndDrop.ts:16-23 | records the dragged id and index; leaves the hover index and the counter |
| Drag.DragAndDrop.HandleDragEnd | src/hooks/useDragAndDrop.ts:25-32 | resets to idle: no dragged item, no hover index, counter 0 |
| Drag.DragAndDrop.HandleDragOver | src/hooks/useDragAndDrop.ts:34-41 | sets the hover index only while dragging and off the source index, and that index is then highlighted; otherwise nothing changes |
| Drag.DragAndDrop.HandleDragEnter | src/hooks/useDragAndDrop.ts:43-47 | increments the counter and sets the hover index, even with no drag active |
| Drag.DragAndDrop.HandleDragLeave | src/hooks/useDragAndDrop.ts:49-54 | decrements the counter and clears the hover index only when the counter reaches exactly 0 |
| Drag.DragAndDrop.HandleDrop | src/hooks/useDragAndDrop.ts:56-71 | with no drag, nothing happens; when the first splice removes nothing, reading `.id` of `undefined` in the `map` throws and the state is unchanged; otherwise the moved order is reported and the hook is idle |
| Drag.DragAndDrop.BorderAt | src/hooks/useDragAndDrop.ts:86-92 | bottom border exactly when the item is hovered and the source is above it; top border exactly when hovered and the source is below |
| Drag.DragAndDrop.ItemClassName | src/hooks/useDragAndDrop.ts:83-95 | the base class alone without a highlight; with one, the border class after the base and a space, or alone when the base is empty |

## Left out

- React machinery is not modelled: state setters, `useCallback` closures and
  their stale captures, the context provider. Operations run one after
  another on one object.
- The initial load effect (`src/context/NotesContext.tsx:39-55`) is not part
  of this model.
- JSON serialisation and local-storage quota errors are not modelled. The
  slots are in-memory values; fields that are `undefined` are `None`.
- Randomness and the clock are parameters. Each operation takes one `now`, so
  the store's and the storage's timestamps in one call are equal; in the code
  they come from separate clock reads.
- Notes.NoteStore.CreatePage and Notes.NoteStore.CreateBlock require an id
  not already in use: `crypto.randomUUID` is assumed never to collide.
- A `Partial<Page>` or `Partial<Block>` update cannot carry `id` or
  `updatedAt`. The merge overwrites `updatedAt` anyway; an update that
  changes `id` is not modelled.
- Aliasing is not modelled. The store's `reorderBlocks` assigns `position`
  on block objects shared with the previous state. The model builds new
  block values instead.
- DOM and event effects of the drag hook are not modelled: `dataTransfer`,
  `style.opacity`, `preventDefault`, `stopPropagation`.
- The drag hook's list is modelled by its ids. `getDragHandleProps` is only
  wiring and is not modelled.
- `src/services/gemini.ts`, `src/context/AIContext.tsx` and the presentational
  components are not part of this model.
- JavaScript `number` becomes Dafny `int` for positions, drag indices and the
  drag counter. Every position the code produces is an integer (a length, an
  index, or a given position), so fractions and `NaN` are not modelled.
- Drag.DragAndDrop.ItemClassName takes the base class as a required
  parameter; the default `baseClassName = ""` is the call with `""`.
