/** A medium (artist, album, track, ...) as last.fm describes it: a name, a
    MusicBrainz ID, a URL, image URLs keyed by size, and listener and play
    counts. Nothing updates a medium after construction, so it is a value. */
module Media {
  import opened Wrappers

  /** The image-size constants. */
  const IMAGE_UNKNOWN: int := -1
  const IMAGE_SMALL: int := 0
  const IMAGE_MEDIUM: int := 1
  const IMAGE_LARGE: int := 2
  const IMAGE_HUGE: int := 3
  const IMAGE_EXTRALARGE: int := 4
  const IMAGE_ORIGINAL: int := 5

  /** The sizes a caller can ask for, smallest first. */
  predicate IsKnownSize(size: int) {
    IMAGE_SMALL <= size <= IMAGE_ORIGINAL
  }

  /** The constructor stores its arguments; the getters are the destructors. */
  datatype Media = Media(
    name: string,
    mbid: string,
    url: string,
    images: map<int, string>,
    listeners: int,
    playCount: int)

  /** getImage($size): with a size, the image of exactly that size or null;
      without one, the image of the largest known size present, or null
      when no known size is present (an entry under IMAGE_UNKNOWN is never
      chosen). */
  method GetImage(m: Media, size: Option<int>) returns (url: Option<string>)
    ensures size.Some? ==>
      url == if size.value in m.images then Some(m.images[size.value]) else None
    ensures size.None? && url.None? ==>
      forall s :: IsKnownSize(s) ==> s !in m.images
    ensures size.None? && url.Some? ==>
      exists s :: IsKnownSize(s) && s in m.images && url.value == m.images[s] &&
        forall t :: s < t <= IMAGE_ORIGINAL ==> t !in m.images
  {
    if size.Some? && size.value in m.images {
      return Some(m.images[size.value]);
    } else if size.None? {
      var s := IMAGE_ORIGINAL;
      while s > IMAGE_UNKNOWN
        invariant IMAGE_UNKNOWN <= s <= IMAGE_ORIGINAL
        invariant forall t :: s < t <= IMAGE_ORIGINAL ==> t !in m.images
      {
        if s in m.images {
          return Some(m.images[s]);
        }
        s := s - 1;
      }
    }
    return None;
  }
}
