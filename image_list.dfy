/** The list operations behind the image collection of the paste area: the
    media-type filter applied when images are added, the index filter applied
    when one is deleted, and the pair of splices that moves one on a drop.
    Everything here is a value computation; the component that holds the list
    is in module PasteArea. */
module ImageList {

  /** An object URL minted by the browser for a file; the component only
      stores it and hands it back, so it is opaque here. */
  datatype ObjectUrl = ObjectUrl(href: string)

  /** A clipboard item or a selected or dropped file: its media type, and the
      object URL the browser hands out when the component asks for one. */
  datatype Item = Item(mediaType: string, objectUrl: ObjectUrl)

  /** The prefix that paste and file upload test a media type against. */
  const ImagePrefix: string := "image"

  /** The stricter prefix that a drop onto the drop zone tests against. */
  const ImageSlashPrefix: string := "image/"

  /** JavaScript's `s.startsWith(prefix)`: the first |prefix| characters of s
      are prefix. */
  predicate StartsWith(s: string, prefix: string) {
    |prefix| <= |s| && forall i :: 0 <= i < |prefix| ==> s[i] == prefix[i]
  }

  /** startsWith holds exactly when prefix is an initial slice of s, and a
      longer prefix than s never matches. */
  lemma StartsWithIsSlicePrefix(s: string, prefix: string)
    ensures StartsWith(s, prefix) <==> |prefix| <= |s| && s[..|prefix|] == prefix
  {
    if |prefix| <= |s| && s[..|prefix|] == prefix {
      assert forall i :: 0 <= i < |prefix| ==> s[i] == s[..|prefix|][i];
    }
  }

  // ---------------------------------------------------------------------------
  // Adding images

  /** What one item contributes: its object URL if its media type starts with
      prefix, nothing otherwise. */
  function UrlIfImage(item: Item, prefix: string): (r: seq<ObjectUrl>)
    ensures |r| <= 1
    ensures |r| == 1 <==> StartsWith(item.mediaType, prefix)
    ensures forall u :: u in r ==> u == item.objectUrl
  {
    if StartsWith(item.mediaType, prefix) then [item.objectUrl] else []
  }

  /** The object URLs of the items whose media type starts with prefix, in the
      order the items come; the other items contribute nothing. */
  function ImageUrls(items: seq<Item>, prefix: string): (r: seq<ObjectUrl>)
    ensures |r| <= |items|
  {
    if items == [] then []
    else UrlIfImage(items[0], prefix) + ImageUrls(items[1..], prefix)
  }

  /** One item adds exactly its own URL when it is an image, and nothing otherwise. */
  lemma ImageUrlsOfOne(item: Item, prefix: string)
    ensures ImageUrls([item], prefix)
         == if StartsWith(item.mediaType, prefix) then [item.objectUrl] else []
  {
    assert [item][1..] == [];
  }

  /** The first item's contribution comes first. */
  lemma ImageUrlsCons(item: Item, rest: seq<Item>, prefix: string)
    ensures ImageUrls([item] + rest, prefix) == UrlIfImage(item, prefix) + ImageUrls(rest, prefix)
  {
    assert ([item] + rest)[0] == item;
    assert ([item] + rest)[1..] == rest;
  }

  /** Filtering a batch in two parts gives the two results one after the other:
      items are handled one at a time and in order. */
  lemma {:induction false} ImageUrlsConcat(a: seq<Item>, b: seq<Item>, prefix: string)
    ensures ImageUrls(a + b, prefix) == ImageUrls(a, prefix) + ImageUrls(b, prefix)
  {
    if a == [] {
      assert a + b == b;
    } else {
      var head, tail := a[0], a[1..];
      assert a == [head] + tail;
      assert a + b == [head] + (tail + b);
      ImageUrlsCons(head, tail + b, prefix);
      ImageUrlsCons(head, tail, prefix);
      ImageUrlsConcat(tail, b, prefix);
    }
  }

  /** A URL is in the result exactly when some item with a matching media type
      carries it: nothing is invented and no matching item is dropped. */
  lemma {:induction false} ImageUrlsMembers(items: seq<Item>, prefix: string, x: ObjectUrl)
    ensures x in ImageUrls(items, prefix)
        <==> exists i :: 0 <= i < |items| && StartsWith(items[i].mediaType, prefix) && items[i].objectUrl == x
  {
    if items != [] {
      ImageUrlsMembers(items[1..], prefix, x);
      if x in ImageUrls(items, prefix) && !(x in UrlIfImage(items[0], prefix)) {
        var j :| 0 <= j < |items[1..]| && StartsWith(items[1..][j].mediaType, prefix) && items[1..][j].objectUrl == x;
        assert items[j + 1] == items[1..][j];
      }
      if exists i :: 0 <= i < |items| && StartsWith(items[i].mediaType, prefix) && items[i].objectUrl == x {
        var i :| 0 <= i < |items| && StartsWith(items[i].mediaType, prefix) && items[i].objectUrl == x;
        if i > 0 {
          assert items[1..][i - 1] == items[i];
        }
      }
    }
  }

  /** A batch with no image in it adds nothing. */
  lemma {:induction false} ImageUrlsNoImages(items: seq<Item>, prefix: string)
    requires forall i :: 0 <= i < |items| ==> !StartsWith(items[i].mediaType, prefix)
    ensures ImageUrls(items, prefix) == []
  {
    if items != [] {
      ImageUrlsNoImages(items[1..], prefix);
    }
  }

  /** A batch of images only adds one URL per item, each at its item's position. */
  lemma {:induction false} ImageUrlsAllImages(items: seq<Item>, prefix: string)
    requires forall i :: 0 <= i < |items| ==> StartsWith(items[i].mediaType, prefix)
    ensures |ImageUrls(items, prefix)| == |items|
    ensures forall i :: 0 <= i < |items| ==> ImageUrls(items, prefix)[i] == items[i].objectUrl
  {
    if items != [] {
      ImageUrlsAllImages(items[1..], prefix);
    }
  }

  /** Every media type that passes the drop zone's test passes the paste test. */
  lemma SlashPrefixImpliesImagePrefix(mediaType: string)
    requires StartsWith(mediaType, ImageSlashPrefix)
    ensures StartsWith(mediaType, ImagePrefix)
  {
  }

  /** A drop never adds more images than a paste of the same items would. */
  lemma {:induction false} DropAddsNoMoreThanPaste(items: seq<Item>)
    ensures |ImageUrls(items, ImageSlashPrefix)| <= |ImageUrls(items, ImagePrefix)|
  {
    if items != [] {
      if StartsWith(items[0].mediaType, ImageSlashPrefix) {
        SlashPrefixImpliesImagePrefix(items[0].mediaType);
      }
      DropAddsNoMoreThanPaste(items[1..]);
    }
  }

  /** The two tests differ: a bare "image" media type is pasted but not dropped. */
  lemma BareImageTypeDiffers(url: ObjectUrl)
    ensures ImageUrls([Item("image", url)], ImagePrefix) == [url]
    ensures ImageUrls([Item("image", url)], ImageSlashPrefix) == []
  {
    ImageUrlsOfOne(Item("image", url), ImagePrefix);
    ImageUrlsOfOne(Item("image", url), ImageSlashPrefix);
  }

  // ---------------------------------------------------------------------------
  // Deleting an image

  /** `s.filter((_, i) => i !== index)`: the elements whose position is not index. */
  function Without<T>(s: seq<T>, index: int): (r: seq<T>)
    ensures |r| == if 0 <= index < |s| then |s| - 1 else |s|
  {
    if s == [] then []
    else (if index == 0 then [] else [s[0]]) + Without(s[1..], index - 1)
  }

  /** Any index outside the list deletes nothing. */
  lemma {:induction false} WithoutOutOfRange<T>(s: seq<T>, index: int)
    requires !(0 <= index < |s|)
    ensures Without(s, index) == s
  {
    if s != [] {
      WithoutOutOfRange(s[1..], index - 1);
      assert s == [s[0]] + s[1..];
    }
  }

  /** An index in range deletes exactly the element there; the others keep
      their order. */
  lemma {:induction false} WithoutInRange<T>(s: seq<T>, index: int)
    requires 0 <= index < |s|
    ensures Without(s, index) == s[..index] + s[index + 1..]
  {
    if index == 0 {
      WithoutOutOfRange(s[1..], -1);
    } else {
      calc {
        Without(s, index);
        [s[0]] + Without(s[1..], index - 1);
        { WithoutInRange(s[1..], index - 1); }
        [s[0]] + (s[1..][..index - 1] + s[1..][index..]);
        { assert s[..index] == [s[0]] + s[1..][..index - 1];
          assert s[index + 1..] == s[1..][index..]; }
        s[..index] + s[index + 1..];
      }
    }
  }

  /** Cutting a sequence around position i loses one copy of s[i] and no more. */
  lemma MultisetAround<T>(s: seq<T>, i: nat)
    requires i < |s|
    ensures multiset(s[..i] + s[i + 1..]) + multiset{s[i]} == multiset(s)
  {
    assert s == s[..i] + [s[i]] + s[i + 1..];
  }

  /** Deleting in range removes one copy of the element at index, nothing else. */
  lemma WithoutRemovesOneCopy<T>(s: seq<T>, index: int)
    requires 0 <= index < |s|
    ensures multiset(Without(s, index)) + multiset{s[index]} == multiset(s)
  {
    WithoutInRange(s, index);
    MultisetAround(s, index);
  }

  // ---------------------------------------------------------------------------
  // Moving an image

  /** The array that `a.splice(start, deleteCount, ...items)` leaves behind,
      for a start inside the array or at its end: as many as deleteCount
      elements (no more than there are) are cut at start, and items go there. */
  function Splice<T>(s: seq<T>, start: nat, deleteCount: nat, items: seq<T>): (r: seq<T>)
    requires start <= |s|
    ensures deleteCount <= |s| - start ==> |r| == |s| - deleteCount + |items|
    ensures deleteCount > |s| - start ==> |r| == start + |items|
  {
    var removed := if deleteCount <= |s| - start then deleteCount else |s| - start;
    s[..start] + items + s[start + removed..]
  }

  /** Position by position: what was before start stays, items follow, then
      the elements after the cut, each shifted by the change in length. */
  lemma SpliceContents<T>(s: seq<T>, start: nat, deleteCount: nat, items: seq<T>)
    requires start <= |s|
    ensures forall k :: 0 <= k < start ==> Splice(s, start, deleteCount, items)[k] == s[k]
    ensures forall k :: 0 <= k < |items| ==> Splice(s, start, deleteCount, items)[start + k] == items[k]
    ensures forall k :: start + |items| <= k < |Splice(s, start, deleteCount, items)| ==>
              Splice(s, start, deleteCount, items)[k] == s[k + |s| - |Splice(s, start, deleteCount, items)|]
  {
  }

  /** The drop handler's reordering: cut the element at from out of a copy of
      the list with one splice, then put it back in at to with another. */
  function Moved<T>(s: seq<T>, from: nat, to: nat): (r: seq<T>)
    requires from < |s| && to < |s|
    ensures |r| == |s|
    ensures r[to] == s[from]
  {
    var dragged := s[from];
    var rest := Splice(s, from, 1, []);
    Splice(rest, to, 0, [dragged])
  }

  /** Cutting one element with splice is deleting it by position. */
  lemma SpliceOutIsWithout<T>(s: seq<T>, index: nat)
    requires index < |s|
    ensures Splice(s, index, 1, []) == Without(s, index)
  {
    WithoutInRange(s, index);
  }

  /** Splicing one element in without cutting any puts it at index. */
  lemma SpliceInIsInsert<T>(s: seq<T>, index: nat, x: T)
    requires index <= |s|
    ensures Splice(s, index, 0, [x]) == s[..index] + [x] + s[index..]
  {
  }

  /** A move is a deletion at from followed by an insertion at to. */
  lemma MovedIsDeleteThenInsert<T>(s: seq<T>, from: nat, to: nat)
    requires from < |s| && to < |s|
    ensures Moved(s, from, to) == Without(s, from)[..to] + [s[from]] + Without(s, from)[to..]
  {
    var rest := Splice(s, from, 1, []);
    SpliceOutIsWithout(s, from);
    SpliceInIsInsert(rest, to, s[from]);
  }

  /** Where each element of the moved list came from: the dragged element lands
      at to, the ones it passed shift by one towards from, the rest stay. */
  function MovedFrom(from: nat, to: nat, k: nat): nat
  {
    if k == to then from
    else if from <= k < to then k + 1
    else if to < k <= from then k - 1
    else k
  }

  /** Element by element, the moved list is the old list read through MovedFrom. */
  lemma MovedAt<T>(s: seq<T>, from: nat, to: nat, k: nat)
    requires from < |s| && to < |s| && k < |s|
    ensures MovedFrom(from, to, k) < |s|
    ensures Moved(s, from, to)[k] == s[MovedFrom(from, to, k)]
  {
    MovedIsDeleteThenInsert(s, from, to);
    WithoutInRange(s, from);
  }

  /** Dropping the first image onto the last tile rotates the list by one. */
  lemma MovedFirstToLast<T>(s: seq<T>)
    requires |s| > 0
    ensures Moved(s, 0, |s| - 1) == s[1..] + [s[0]]
  {
    MovedIsDeleteThenInsert(s, 0, |s| - 1);
    WithoutInRange(s, 0);
  }

  /** A move neither loses nor duplicates an image. */
  lemma MovedIsPermutation<T>(s: seq<T>, from: nat, to: nat)
    requires from < |s| && to < |s|
    ensures multiset(Moved(s, from, to)) == multiset(s)
  {
    var rest := Without(s, from);
    MovedIsDeleteThenInsert(s, from, to);
    WithoutRemovesOneCopy(s, from);
    assert rest == rest[..to] + rest[to..];
    assert multiset(Moved(s, from, to)) == multiset(rest) + multiset{s[from]};
  }

  /** Leaving the moved element aside, the others keep their relative order. */
  lemma MovedKeepsOthersInOrder<T>(s: seq<T>, from: nat, to: nat)
    requires from < |s| && to < |s|
    ensures Without(Moved(s, from, to), to) == Without(s, from)
  {
    var rest := Without(s, from);
    var r := Moved(s, from, to);
    MovedIsDeleteThenInsert(s, from, to);
    WithoutInRange(r, to);
    assert r[..to] == rest[..to];
    assert r[to + 1..] == rest[to..];
    assert rest == rest[..to] + rest[to..];
  }

  /** Dropping an image onto its own tile changes nothing. */
  lemma MovedToItselfIsIdentity<T>(s: seq<T>, i: nat)
    requires i < |s|
    ensures Moved(s, i, i) == s
  {
    var rest := Without(s, i);
    MovedIsDeleteThenInsert(s, i, i);
    WithoutInRange(s, i);
    assert rest[..i] == s[..i];
    assert rest[i..] == s[i + 1..];
    assert s == s[..i] + [s[i]] + s[i + 1..];
  }

  /** Dragging the moved image back from to onto from restores the list. */
  lemma MovedBackRestores<T>(s: seq<T>, from: nat, to: nat)
    requires from < |s| && to < |s|
    ensures Moved(Moved(s, from, to), to, from) == s
  {
    var rest := Without(s, from);
    var r := Moved(s, from, to);
    MovedKeepsOthersInOrder(s, from, to);
    MovedIsDeleteThenInsert(r, to, from);
    WithoutInRange(s, from);
    assert rest[..from] == s[..from];
    assert rest[from..] == s[from + 1..];
    assert s == s[..from] + [s[from]] + s[from + 1..];
  }
}
