/**
 * The property page's photo gallery: a main picture with arrows and
 * thumbnails, and a full-screen lightbox with its own arrows. Both step
 * cyclically through the images, each keeping its own position.
 */
module Gallery {

  /** `(i + 1) % n` */
  function NextIndex(i: nat, n: nat): (r: nat)
    requires i < n
    ensures r < n
    ensures r == if i == n - 1 then 0 else i + 1
  {
    (i + 1) % n
  }

  /** `(i - 1 + n) % n` */
  function PrevIndex(i: nat, n: nat): (r: nat)
    requires i < n
    ensures r < n
    ensures r == if i == 0 then n - 1 else i - 1
  {
    (i - 1 + n) % n
  }

  /** Back after forward, and forward after back, return to the same image. */
  lemma StepsUndo(i: nat, n: nat)
    requires i < n
    ensures PrevIndex(NextIndex(i, n), n) == i
    ensures NextIndex(PrevIndex(i, n), n) == i
  {
  }

  /** The position after `k` presses of the forward arrow. */
  function Advance(i: nat, n: nat, k: nat): (r: nat)
    requires i < n
    ensures r < n
  {
    if k == 0 then i else NextIndex(Advance(i, n, k - 1), n)
  }

  /** Short of the last image, `k` presses move `k` places. */
  lemma {:induction false} AdvanceWithoutWrap(i: nat, n: nat, k: nat)
    requires i + k < n
    ensures Advance(i, n, k) == i + k
  {
    if k > 0 {
      AdvanceWithoutWrap(i, n, k - 1);
    }
  }

  /** Presses add up: `a` presses then `b` presses is `a + b` presses. */
  lemma {:induction false} AdvanceCompose(i: nat, n: nat, a: nat, b: nat)
    requires i < n
    ensures Advance(i, n, a + b) == Advance(Advance(i, n, a), n, b)
  {
    if b > 0 {
      AdvanceCompose(i, n, a, b - 1);
    }
  }

  /** Going forward once per image comes back round to where it started. */
  lemma FullCircle(i: nat, n: nat)
    requires i < n
    ensures Advance(i, n, n) == i
  {
    AdvanceWithoutWrap(i, n, n - i - 1);
    assert Advance(i, n, n - i) == 0;
    AdvanceCompose(i, n, n - i, i);
    if i > 0 {
      AdvanceWithoutWrap(0, n, i);
    }
  }

  class PhotoGallery {
    const images: seq<string>
    var selectedImage: nat
    var lightboxImage: nat
    var isLightboxOpen: bool

    /** Both positions name an existing image whenever there is one. */
    ghost predicate Valid()
      reads this
    {
      |images| > 0 ==> selectedImage < |images| && lightboxImage < |images|
    }

    constructor (pictures: seq<string>)
      ensures images == pictures && selectedImage == 0 && lightboxImage == 0 && !isLightboxOpen
      ensures Valid()
    {
      images := pictures;
      selectedImage, lightboxImage, isLightboxOpen := 0, 0, false;
    }

    /** An empty list shows the "no pictures" placeholder, with no arrows and no lightbox. */
    predicate ShowsPlaceholder(): (empty: bool)
      reads this
      ensures empty ==> !ShowsArrows()
      ensures !empty && Valid() ==> selectedImage < |images| && lightboxImage < |images|
    {
      |images| == 0
    }

    /**
     * The arrows and thumbnails appear only when there is more than one
     * picture, that is exactly when a step would change the picture shown.
     */
    predicate ShowsArrows(): (arrows: bool)
      reads this
      ensures Valid() && |images| > 0 ==> (arrows <==> NextIndex(selectedImage, |images|) != selectedImage)
      ensures Valid() && |images| > 0 ==> (arrows <==> PrevIndex(selectedImage, |images|) != selectedImage)
    {
      |images| > 1
    }

    method NextImage()
      requires Valid() && |images| > 0
      modifies this
      ensures Valid()
      ensures selectedImage == NextIndex(old(selectedImage), |images|)
      ensures lightboxImage == old(lightboxImage) && isLightboxOpen == old(isLightboxOpen)
    {
      selectedImage := NextIndex(selectedImage, |images|);
    }

    method PrevImage()
      requires Valid() && |images| > 0
      modifies this
      ensures Valid()
      ensures selectedImage == PrevIndex(old(selectedImage), |images|)
      ensures lightboxImage == old(lightboxImage) && isLightboxOpen == old(isLightboxOpen)
    {
      selectedImage := PrevIndex(selectedImage, |images|);
    }

    method NextLightboxImage()
      requires Valid() && |images| > 0
      modifies this
      ensures Valid()
      ensures lightboxImage == NextIndex(old(lightboxImage), |images|)
      ensures selectedImage == old(selectedImage) && isLightboxOpen == old(isLightboxOpen)
    {
      lightboxImage := NextIndex(lightboxImage, |images|);
    }

    method PrevLightboxImage()
      requires Valid() && |images| > 0
      modifies this
      ensures Valid()
      ensures lightboxImage == PrevIndex(old(lightboxImage), |images|)
      ensures selectedImage == old(selectedImage) && isLightboxOpen == old(isLightboxOpen)
    {
      lightboxImage := PrevIndex(lightboxImage, |images|);
    }

    /** A thumbnail click shows that picture in the main frame. */
    method SelectImage(index: nat)
      requires Valid() && index < |images|
      modifies this
      ensures Valid()
      ensures selectedImage == index
      ensures lightboxImage == old(lightboxImage) && isLightboxOpen == old(isLightboxOpen)
    {
      selectedImage := index;
    }

    /** `openLightbox(index)`: the lightbox opens on that picture; the main frame stays put. */
    method OpenLightbox(index: nat)
      requires Valid() && index < |images|
      modifies this
      ensures Valid()
      ensures lightboxImage == index && isLightboxOpen
      ensures selectedImage == old(selectedImage)
    {
      lightboxImage := index;
      isLightboxOpen := true;
    }

    /** `closeLightbox` only hides it: reopening without a new index would show the same picture. */
    method CloseLightbox()
      requires Valid()
      modifies this
      ensures Valid()
      ensures !isLightboxOpen
      ensures selectedImage == old(selectedImage) && lightboxImage == old(lightboxImage)
    {
      isLightboxOpen := false;
    }
  }
}
