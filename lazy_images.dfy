/**
 * Lazy image loading (site-performance.js, lazyLoadImages): every image that
 * has a data-src attribute when the page is ready is observed; when one
 * comes near the viewport with a non-empty data-src, that value becomes its
 * src, the attribute is dropped and the image is no longer observed.
 */
module LazyImages {
  import opened Wrappers

  /** An image: its src and its data-src attribute, if it has one. */
  datatype Image = Image(src: string, dataSrc: Option<string>)

  class ImageObserver {
    var images: seq<Image>
    var observed: set<nat>

    /** The observed images are exactly those that still carry a data-src attribute. */
    ghost predicate Valid()
      reads this
    {
      forall i: nat :: i in observed <==> i < |images| && images[i].dataSrc.Some?
    }

    constructor (imgs: seq<Image>)
      ensures Valid() && images == imgs
    {
      images := imgs;
      observed := set i: nat | i < |imgs| && imgs[i].dataSrc.Some?;
    }

    /**
     * An observed image intersects. A non-empty data-src is promoted to src,
     * removed and the image unobserved; an empty one leaves the image as it
     * is and still observed. No other image changes.
     */
    method Intersects(i: nat)
      requires Valid() && i in observed
      modifies this
      ensures Valid() && |images| == |old(images)|
      ensures old(images[i].dataSrc) != Some("") ==>
        && images[i] == Image(old(images[i].dataSrc.value), None)
        && observed == old(observed) - {i}
      ensures old(images[i].dataSrc) == Some("") ==> images == old(images) && observed == old(observed)
      ensures forall j :: 0 <= j < |images| && j != i ==> images[j] == old(images[j])
    {
      var src := images[i].dataSrc.value;
      if src != "" {
        images := images[i := Image(src, None)];
        observed := observed - {i};
      }
    }

    /** An image that is no longer observed keeps its src from then on: Intersects cannot reach it. */
    lemma UnobservedIsSettled(i: nat)
      requires Valid() && i < |images| && i !in observed
      ensures images[i].dataSrc.None?
    {
    }
  }
}
