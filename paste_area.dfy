/** The image paste area component: the five state cells it keeps and the
    event handlers that overwrite them. Each handler is a method whose frame
    names the cells it may write, so every other cell is left as it was. */
module PasteArea {
  import opened ImageList

  /** The options of the layout selector. */
  datatype Layout = Grid | List | Masonry | Columns

  class ImagePasteArea {
    /** The collection, in display order. */
    var images: seq<ObjectUrl>
    var layoutStyle: Layout
    var lightboxOpen: bool
    /** The slide the lightbox shows; the component never checks it against the list. */
    var currentImageIndex: int
    /** Whether a file is being dragged over the drop zone. */
    var isDragging: bool

    /** The state on mount. */
    constructor ()
      ensures images == [] && layoutStyle == Grid
      ensures !lightboxOpen && currentImageIndex == 0 && !isDragging
    {
      images := [];
      layoutStyle := Grid;
      lightboxOpen := false;
      currentImageIndex := 0;
      isDragging := false;
    }

    /** Walks the items in order and appends the object URL of each one whose
        media type starts with prefix; the list already there is kept. */
    method AppendImages(items: seq<Item>, prefix: string)
      modifies this`images
      ensures images == old(images) + ImageUrls(items, prefix)
    {
      var i := 0;
      while i < |items|
        invariant 0 <= i <= |items|
        invariant images == old(images) + ImageUrls(items[..i], prefix)
      {
        var item := items[i];
        if StartsWith(item.mediaType, prefix) {
          images := images + [item.objectUrl];
        }
        assert items[..i + 1] == items[..i] + [item];
        ImageUrlsConcat(items[..i], [item], prefix);
        ImageUrlsOfOne(item, prefix);
        i := i + 1;
      }
      assert items[..i] == items;
    }

    /** A paste adds every clipboard item whose type starts with "image". */
    method HandlePaste(items: seq<Item>)
      modifies this`images
      ensures images == old(images) + ImageUrls(items, ImagePrefix)
    {
      AppendImages(items, ImagePrefix);
    }

    /** The file picker adds every chosen file whose type starts with "image". */
    method HandleFileUpload(files: seq<Item>)
      modifies this`images
      ensures images == old(images) + ImageUrls(files, ImagePrefix)
    {
      AppendImages(files, ImagePrefix);
    }

    /** A drop on the drop zone ends the drag-over state and adds every dropped
        file whose type starts with "image/". */
    method HandleDropUpload(files: seq<Item>)
      modifies this`images, this`isDragging
      ensures !isDragging
      ensures images == old(images) + ImageUrls(files, ImageSlashPrefix)
    {
      isDragging := false;
      if |files| > 0 {
        AppendImages(files, ImageSlashPrefix);
      }
    }

    /** The trash icon: the prompt is shown only when Ctrl is not held, and the
        image at index goes when Ctrl is held or the prompt is confirmed. */
    method DeleteImage(index: int, ctrlKey: bool, confirmed: bool) returns (prompted: bool)
      modifies this`images
      ensures prompted == !ctrlKey
      ensures images == if ctrlKey || confirmed then Without(old(images), index) else old(images)
    {
      prompted := !ctrlKey;
      if !ctrlKey && !confirmed {
        return;
      }
      images := Without(images, index);
    }

    /** Dropping the tile dragged from dragIndex onto the tile at dropIndex:
        the list is copied, the dragged image is spliced out and spliced back
        in at dropIndex. */
    method HandleDrop(dragIndex: nat, dropIndex: nat)
      requires dragIndex < |images| && dropIndex < |images|
      modifies this`images
      ensures images == Moved(old(images), dragIndex, dropIndex)
      ensures |images| == |old(images)| && multiset(images) == multiset(old(images))
      ensures images[dropIndex] == old(images)[dragIndex]
    {
      var newImages := images;
      var draggedImage := newImages[dragIndex];
      newImages := Splice(newImages, dragIndex, 1, []);
      newImages := Splice(newImages, dropIndex, 0, [draggedImage]);
      MovedIsPermutation(images, dragIndex, dropIndex);
      images := newImages;
    }

    /** Clicking an image opens the lightbox on it. */
    method OpenLightbox(index: int)
      modifies this`currentImageIndex, this`lightboxOpen
      ensures currentImageIndex == index && lightboxOpen
    {
      currentImageIndex := index;
      lightboxOpen := true;
    }

    /** The lightbox's close callback. */
    method CloseLightbox()
      modifies this`lightboxOpen
      ensures !lightboxOpen
    {
      lightboxOpen := false;
    }

    /** The lightbox's index-change callback (next and previous slide). */
    method ChangeLightboxIndex(index: int)
      modifies this`currentImageIndex
      ensures currentImageIndex == index
    {
      currentImageIndex := index;
    }

    /** The layout selector's change callback. */
    method SelectLayout(layout: Layout)
      modifies this`layoutStyle
      ensures layoutStyle == layout
    {
      layoutStyle := layout;
    }

    /** A drag enters the drop zone. */
    method HandleDragEnter()
      modifies this`isDragging
      ensures isDragging
    {
      isDragging := true;
    }

    /** A drag leaves the drop zone. */
    method HandleDragLeave()
      modifies this`isDragging
      ensures !isDragging
    {
      isDragging := false;
    }

    /** A drag moves over the drop zone: the flag is set if it was not already. */
    method HandleDragOverUpload()
      modifies this`isDragging
      ensures isDragging
    {
      if !isDragging {
        isDragging := true;
      }
    }
  }

  /** Images reach a fresh component by every route in the order they come:
      an image and a non-image pasted, an image chosen in the file picker and
      an image dropped on the drop zone leave three images, in that order. */
  method AddByEveryRoute(pasted: Item, other: Item, chosen: Item, dropped: Item)
    returns (added: seq<ObjectUrl>)
    requires StartsWith(pasted.mediaType, ImagePrefix) && !StartsWith(other.mediaType, ImagePrefix)
    requires StartsWith(chosen.mediaType, ImagePrefix) && StartsWith(dropped.mediaType, ImageSlashPrefix)
    ensures added == [pasted.objectUrl, chosen.objectUrl, dropped.objectUrl]
  {
    assert ImageUrls([pasted, other], ImagePrefix) == [pasted.objectUrl] by {
      ImageUrlsOfOne(other, ImagePrefix);
      ImageUrlsCons(pasted, [other], ImagePrefix);
      assert [pasted, other] == [pasted] + [other];
    }
    ImageUrlsOfOne(chosen, ImagePrefix);
    ImageUrlsOfOne(dropped, ImageSlashPrefix);

    var area := new ImagePasteArea();
    area.HandlePaste([pasted, other]);
    area.HandleFileUpload([chosen]);
    area.HandleDragEnter();
    area.HandleDropUpload([dropped]);
    added := area.images;
  }

  /** On a component holding a, b and c: dropping the first tile onto the
      last gives b, c, a; deleting the middle tile with Ctrl held then
      gives b, a. */
  method ReorderThenDelete(area: ImagePasteArea, a: ObjectUrl, b: ObjectUrl, c: ObjectUrl)
    returns (reordered: seq<ObjectUrl>, remaining: seq<ObjectUrl>)
    requires area.images == [a, b, c]
    modifies area
    ensures reordered == [b, c, a]
    ensures remaining == [b, a]
    ensures area.images == remaining
  {
    assert Moved([a, b, c], 0, 2) == [b, c, a] by {
      MovedFirstToLast([a, b, c]);
    }
    assert Without([b, c, a], 1) == [b, a] by {
      WithoutInRange([b, c, a], 1);
    }
    area.HandleDrop(0, 2);
    reordered := area.images;

    var prompted := area.DeleteImage(1, true, false);
    assert !prompted;
    remaining := area.images;
  }

  /** Opening the lightbox on tile k and stepping to the next slide shows
      slide k + 1 and leaves the collection and the layout alone. */
  method PreviewNext(area: ImagePasteArea, k: nat)
    requires k + 1 < |area.images|
    modifies area
    ensures area.lightboxOpen && area.currentImageIndex == k + 1
    ensures area.images == old(area.images) && area.layoutStyle == old(area.layoutStyle)
  {
    area.OpenLightbox(k);
    area.ChangeLightboxIndex(k + 1);
  }
}
