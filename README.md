# Image paste area: a verified model of its collection state

The image scrapbook page keeps its whole working state in one React
component, `ImagePasteArea`: an ordered list of object URLs for the images
the user has pasted, uploaded or dropped, the chosen layout (grid, list,
masonry or columns), whether the full-screen lightbox is open and which slide
it shows, and whether a file is being dragged over the drop zone. Its event
handlers change that state through a few list operations: appending the
images among a batch of clipboard items or files, deleting one image by
position after a confirmation (skipped when Ctrl is held), and moving one
image to another tile with two `splice` calls.

This project models that state and those handlers in Dafny and proves what
they promise.

- `image_list.dfy` (module `ImageList`) holds the list operations as
  functions:
  - `ImageUrls` is the media-type filter;
  - `Without` is the `filter` by index used to delete;
  - `Splice` and `Moved` are the two splices of a drag-and-drop move.
  Lemmas beside them state the properties: order preserved, one URL per
  image, exactly one element removed, a move is a permutation, the moved
  image lands on the target tile, the others keep their order, and a move
  back restores the list.
- `paste_area.dfy` (module `PasteArea`) holds the component as the class
  `ImagePasteArea`. Its five fields are the five state cells, and there is
  one method per handler. Each method's `modifies` clause names only the
  cells the handler writes, so every other cell is provably left alone. Each
  `ensures` ties the new value of the written cells to the old state through
  the functions above. Three client methods run the handlers in sequence:
  `AddByEveryRoute`, `ReorderThenDelete` and `PreviewNext`.

Browser services become parameters:
- `URL.createObjectURL` is the object URL an `Item` carries;
- `window.confirm` is the `confirmed` argument of `DeleteImage`;
- `event.ctrlKey` is the `ctrlKey` argument of `DeleteImage`;
- the index stored by `dataTransfer.setData` at drag start is the
  `dragIndex` argument of `HandleDrop`.

React applies the functional `setImages` updates that a paste queues one per
image, in order. The model applies each one at once, which leaves the same
final list.

Some behaviours of the code are worth stating plainly, because the model
follows them as written:
- Paste and file upload test whether the media type starts with `image`
  (`ImagePasteArea.jsx:19`, `:30`). A drop on the drop zone tests `image/`
  (`:110`). A file of type `image` is therefore pasted but not dropped.
- Deleting an image never calls `URL.revokeObjectURL`, so its object URL
  stays allocated.
- `openLightbox` does not check its index against the list, and closing the
  lightbox leaves `currentImageIndex` as it was.
- `getData` returns the index a tile stored as a string. For such an index,
  `images[dragIndex]` and `splice(dragIndex, 1)` both read it as that
  number, so the model takes it as a natural number in range.

## Model

| member | source | states |
|---|---|---|
| `ImageList.ImageUrls` | src/pages/modules/ImagePasteArea.jsx:18-24 | a batch never yields more URLs than it has items |
| `ImageList.StartsWithIsSlicePrefix` | src/pages/modules/ImagePasteArea.jsx:19 | `StartsWith`, the model of `String.prototype.startsWith` used by paste, upload and drop (:30, :110), holds exactly when the prefix is no longer than the type and equals its initial slice |
| `ImageList.UrlIfImage` | src/pages/modules/ImagePasteArea.jsx:19-22 | one item contributes at most one URL, exactly one when its type passes the prefix test, and that URL is its own |
| `ImageList.ImageUrlsMembers` | src/pages/modules/ImagePasteArea.jsx:18-24 | a URL is added exactly when some item whose type passes the test carries it: nothing is invented and no image is skipped |
| `ImageList.ImageUrlsConcat` | src/pages/modules/ImagePasteArea.jsx:18-24 | filtering a batch in two parts gives the two results in order: items are taken one at a time, in input order |
| `ImageList.ImageUrlsNoImages` | src/pages/modules/ImagePasteArea.jsx:29-34 | a batch with no matching media type adds nothing |
| `ImageList.ImageUrlsAllImages` | src/pages/modules/ImagePasteArea.jsx:29-34 | a batch of images adds one URL per item, the i-th URL being the i-th item's |
| `ImageList.SlashPrefixImpliesImagePrefix` | src/pages/modules/ImagePasteArea.jsx:110 | every type accepted by the drop zone's `image/` test is accepted by the `image` test of paste and upload |
| `ImageList.DropAddsNoMoreThanPaste` | src/pages/modules/ImagePasteArea.jsx:108-114 | a drop adds no more images than a paste of the same items would |
| `ImageList.BareImageTypeDiffers` | src/pages/modules/ImagePasteArea.jsx:110 | the two tests differ: a bare `image` type is pasted but not dropped |
| `ImageList.Without` | src/pages/modules/ImagePasteArea.jsx:44 | deleting by index shortens the list by one when the index is in range and keeps its length otherwise |
| `ImageList.WithoutOutOfRange` | src/pages/modules/ImagePasteArea.jsx:44 | an index outside the list deletes nothing |
| `ImageList.WithoutInRange` | src/pages/modules/ImagePasteArea.jsx:44 | an index in range removes exactly the element there, and the others keep their order |
| `ImageList.WithoutRemovesOneCopy` | src/pages/modules/ImagePasteArea.jsx:44 | deleting in range loses one copy of the element at the index and nothing else |
| `ImageList.Splice` | src/pages/modules/ImagePasteArea.jsx:62-63 | `Array.prototype.splice` for a start inside the array: the length changes by the number of items inserted less the number cut, and the cut is clamped to the elements that remain |
| `ImageList.SpliceContents` | src/pages/modules/ImagePasteArea.jsx:62-63 | position by position, a splice keeps what precedes the start, puts the inserted items there, and shifts the elements after the cut by the change in length |
| `ImageList.SpliceInIsInsert` | src/pages/modules/ImagePasteArea.jsx:63 | `splice(i, 0, x)` inserts x at position i and keeps everything else in order |
| `ImageList.Moved` | src/pages/modules/ImagePasteArea.jsx:60-64 | a move keeps the length, and the dragged image ends up at the drop index |
| `ImageList.SpliceOutIsWithout` | src/pages/modules/ImagePasteArea.jsx:62 | `splice(i, 1)` leaves the same list as deleting by index i |
| `ImageList.MovedIsDeleteThenInsert` | src/pages/modules/ImagePasteArea.jsx:60-64 | a move is a deletion at the drag index followed by an insertion of that image at the drop index |
| `ImageList.MovedAt` | src/pages/modules/ImagePasteArea.jsx:60-64 | element by element: the dragged image sits at the drop index, the images it passed shift by one towards the drag index, and the rest stay in place |
| `ImageList.MovedFirstToLast` | src/pages/modules/ImagePasteArea.jsx:60-64 | dropping the first image on the last tile rotates the list left by one |
| `ImageList.MovedIsPermutation` | src/pages/modules/ImagePasteArea.jsx:60-64 | a move neither loses nor duplicates an image (same multiset) |
| `ImageList.MovedKeepsOthersInOrder` | src/pages/modules/ImagePasteArea.jsx:60-64 | apart from the moved image, the list after the move is the list before it, in the same order |
| `ImageList.MovedToItselfIsIdentity` | src/pages/modules/ImagePasteArea.jsx:60-64 | dropping an image on its own tile changes nothing |
| `ImageList.MovedBackRestores` | src/pages/modules/ImagePasteArea.jsx:60-64 | dragging the moved image back to where it came from restores the original list |
| `PasteArea.ImagePasteArea.constructor` | src/pages/modules/ImagePasteArea.jsx:9-13 | the initial state: no images, grid layout, lightbox closed at index 0, nothing dragged over |
| `PasteArea.ImagePasteArea.AppendImages` | src/pages/modules/ImagePasteArea.jsx:18-24 | the loop appends the matching items' URLs to the list, which it otherwise keeps, and writes no other cell |
| `PasteArea.ImagePasteArea.HandlePaste` | src/pages/modules/ImagePasteArea.jsx:16-25 | a paste appends the URLs of the clipboard items whose type starts with `image`, in order; the old entries and every other cell are unchanged |
| `PasteArea.ImagePasteArea.HandleFileUpload` | src/pages/modules/ImagePasteArea.jsx:27-35 | the file picker appends the URLs of the chosen files whose type starts with `image`, in order; nothing else changes |
| `PasteArea.ImagePasteArea.HandleDropUpload` | src/pages/modules/ImagePasteArea.jsx:101-116 | a drop clears the drag-over flag and appends the URLs of the dropped files whose type starts with `image/`, in order |
| `PasteArea.ImagePasteArea.DeleteImage` | src/pages/modules/ImagePasteArea.jsx:37-45 | the prompt is shown exactly when Ctrl is not held; with Ctrl or a confirmation the list loses the entry at the index, otherwise it is unchanged; no other cell changes |
| `PasteArea.ImagePasteArea.HandleDrop` | src/pages/modules/ImagePasteArea.jsx:56-65 | the list becomes the moved list: same length, same multiset, the dragged image at the drop index; no other cell changes |
| `PasteArea.ImagePasteArea.OpenLightbox` | src/pages/modules/ImagePasteArea.jsx:71-74 | the lightbox opens on the given index; the list, layout and drag flag are untouched |
| `PasteArea.ImagePasteArea.CloseLightbox` | src/pages/modules/ImagePasteArea.jsx:215 | closing only clears the open flag |
| `PasteArea.ImagePasteArea.ChangeLightboxIndex` | src/pages/modules/ImagePasteArea.jsx:219 | navigating only sets the current index |
| `PasteArea.ImagePasteArea.SelectLayout` | src/pages/modules/ImagePasteArea.jsx:144-145 | the selector only sets the layout; list and lightbox are untouched |
| `PasteArea.ImagePasteArea.HandleDragEnter` | src/pages/modules/ImagePasteArea.jsx:83-87 | entering the drop zone sets the drag-over flag and nothing else |
| `PasteArea.ImagePasteArea.HandleDragLeave` | src/pages/modules/ImagePasteArea.jsx:89-93 | leaving the drop zone clears the drag-over flag and nothing else |
| `PasteArea.ImagePasteArea.HandleDragOverUpload` | src/pages/modules/ImagePasteArea.jsx:95-99 | after a drag-over the flag is set, whatever it was, and nothing else changes |
| `PasteArea.AddByEveryRoute` | src/pages/modules/ImagePasteArea.jsx:16-116 | on a fresh component, an image and a non-image pasted, then an image uploaded, then an image dropped, give exactly the three image URLs in the order added |
| `PasteArea.ReorderThenDelete` | src/pages/modules/ImagePasteArea.jsx:37-65 | on a list a, b, c, dropping the first tile on the last gives b, c, a, and deleting the middle one with Ctrl held then gives b, a |
| `PasteArea.PreviewNext` | src/pages/modules/ImagePasteArea.jsx:71-74 | opening the lightbox on tile k and stepping to k + 1 shows k + 1 and leaves the list and layout as they were |

## Left out

- `src/pages/Wrapper.jsx`: the export runs through `html2canvas`, `canvas.toDataURL` and a download link, an asynchronous rasterization in a foreign library. The theme toggle writes `document.body.classList` and holds no data logic.
- Rendering: the JSX tree, the `Masonry` and `Lightbox` widgets, the trash icon and the `breakpointColumnsObj` column table. These are presentation and foreign widgets. The lightbox's own next/previous policy lives in the widget, so only the `onIndexChange` callback is modelled.
- `handleDragStart`, `handleDragEnd` and `handleDragOver` on the tiles: they only set DOM classes, call `dataTransfer.setData` and call `preventDefault`. The index a tile stores becomes the `dragIndex` parameter.
- HandleDrop: the indices are required to be in range (`dragIndex`, `dropIndex` < number of images), as they are when both come from rendered tiles. A file dropped onto a tile is a case the source gets wrong, and the model does not describe it. The tiles call `preventDefault` on dragover (:53), so the drop is accepted and `getData` returns `""`. Then `newImages[""]` is `undefined`, `splice("", 1)` reads `""` as 0 and removes the first image, and `splice(dropIndex, 0, undefined)` inserts an empty entry. The list loses its first image and gains a broken tile. This follows from the language's rules and was not executed.
- `URL.createObjectURL`: each item carries the URL the browser would mint for it. Freshness of the handles is not modelled. The source never revokes a handle, so release is not modelled either.
- A clipboard item whose type starts with `image` but whose `getAsFile()` returns `null` would make `createObjectURL` throw. The model treats every such item as a file.
- HandleDropUpload: `dataTransfer.files` is a sequence, so the source's null guard reduces to the length test.
- SelectLayout: the select element can only produce its four option values, so the model takes a `Layout` rather than a string.
- React's deferred, batched application of state updates: each handler's updates are applied at once, in order, which gives the same state once the handler's updates have been applied.
