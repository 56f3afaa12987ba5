/**
 * The media carousel of a report: a grid of thumbnails, each opening a
 * dialog on the selected item, with next/previous buttons that wrap around,
 * thumbnail selection, and zoom controls for images only. A URL's kind is
 * guessed from the extensions it contains, video first.
 */
module MediaViewer {
  import opened Text

  datatype MediaKind = Video | Audio | Image

  predicate LooksLikeVideo(url: string) {
    Contains(url, ".mp4") || Contains(url, ".webm") || Contains(url, ".mov")
  }

  predicate LooksLikeAudio(url: string) {
    Contains(url, ".mp3") || Contains(url, ".wav") || Contains(url, ".m4a")
  }

  /** `isVideo ? video : isAudio ? audio : image` */
  function KindOf(url: string): (kind: MediaKind)
    ensures kind == Video <==> LooksLikeVideo(url)
    ensures kind == Audio <==> !LooksLikeVideo(url) && LooksLikeAudio(url)
    ensures kind == Image <==> !LooksLikeVideo(url) && !LooksLikeAudio(url)
  {
    if LooksLikeVideo(url) then Video else if LooksLikeAudio(url) then Audio else Image
  }

  /** A URL naming both a video and an audio extension is shown as video. */
  lemma VideoWinsOverAudio(stem: string)
    ensures KindOf(stem + ".mp3" + ".mp4") == Video
    ensures LooksLikeAudio(stem + ".mp3" + ".mp4")
  {
    ContainsSuffix(stem + ".mp3", ".mp4");
    ContainsPrefix(stem, ".mp3", ".mp4");
  }

  lemma {:induction false} ContainsPrefix(prefix: string, sub: string, rest: string)
    ensures Contains(prefix + sub + rest, sub)
  {
    if prefix != [] {
      assert (prefix + sub + rest)[1..] == prefix[1..] + sub + rest;
      ContainsPrefix(prefix[1..], sub, rest);
    } else {
      assert (prefix + sub + rest)[..|sub|] == sub;
    }
  }

  /** JavaScript's `%`: the remainder takes the sign of the dividend. */
  function JsRemainder(a: int, n: int): (r: int)
    requires n > 0
    ensures a >= 0 ==> r == a % n && 0 <= r < n
    ensures a < 0 ==> -n < r <= 0
  {
    if a >= 0 then a % n else -((-a) % n)
  }

  /** Unlike Dafny's `%`, the JavaScript remainder is odd in the dividend. */
  lemma JsRemainderOdd(a: int, n: int)
    requires n > 0
    ensures JsRemainder(-a, n) == -JsRemainder(a, n)
  {
  }

  /** `(prev + 1) % urls.length` */
  function NextIndex(i: int, n: int): (j: int)
    requires n > 0
    ensures 0 <= i < n ==> 0 <= j < n && j == (if i == n - 1 then 0 else i + 1)
  {
    JsRemainder(i + 1, n)
  }

  /** `(prev - 1 + urls.length) % urls.length` */
  function PrevIndex(i: int, n: int): (j: int)
    requires n > 0
    ensures 0 <= i < n ==> 0 <= j < n && j == (if i == 0 then n - 1 else i - 1)
  {
    JsRemainder(i - 1 + n, n)
  }

  /** Next then previous, or previous then next, comes back to the same item. */
  lemma NextPrevRoundTrip(i: int, n: int)
    requires 0 <= i < n
    ensures PrevIndex(NextIndex(i, n), n) == i
    ensures NextIndex(PrevIndex(i, n), n) == i
  {
  }

  /** A nonzero multiple of a positive `n` is at least `n` away from 0. */
  lemma NonzeroMultiple(d: int, n: int)
    requires n > 0
    ensures d >= 1 ==> n * d >= n
    ensures d <= -1 ==> n * d <= -n
  {
  }

  /** A multiple of `n` leaves remainder 0. */
  lemma MultipleRemainder(k: int, n: int)
    requires n > 0
    ensures (k * n) % n == 0
  {
    var q, r := (k * n) / n, (k * n) % n;
    assert n * (k - q) == r;
    NonzeroMultiple(k - q, n);
  }

  /** Whether `n` divides `a` does not depend on the sign of `a`. */
  lemma DivisibleNegated(a: int, n: int)
    requires n > 0
    ensures (-a) % n == 0 <==> a % n == 0
  {
    MultipleRemainder(-(a / n), n);
    MultipleRemainder(-((-a) / n), n);
  }

  /**
   * From a start index below the range the JavaScript remainder is never
   * positive: a step lands in range, on item 0, exactly when the dividend is a
   * multiple of the list length, and otherwise stays negative.
   */
  lemma NegativeStartNavigation(i: int, n: int)
    requires n > 0
    ensures i + 1 < 0 ==> NextIndex(i, n) <= 0 && (NextIndex(i, n) == 0 <==> (i + 1) % n == 0)
    ensures i - 1 + n < 0 ==> PrevIndex(i, n) <= 0 && (PrevIndex(i, n) == 0 <==> (i - 1 + n) % n == 0)
  {
    JsRemainderOdd(-(i + 1), n);
    DivisibleNegated(i + 1, n);
    JsRemainderOdd(-(i - 1 + n), n);
    DivisibleNegated(i - 1 + n, n);
  }

  /** With two items, both buttons take start index -4 to -1, off the list. */
  lemma NegativeStartStaysOutOfRange()
    ensures PrevIndex(-4, 2) == -1
    ensures NextIndex(-4, 2) == -1
  {
  }

  class Carousel {
    const urls: seq<string>
    var selectedIndex: int
    var zoom: real
    var open: bool

    /** `useState(currentIndex)`, `useState(1)`, `useState(false)` */
    constructor(urls: seq<string>, currentIndex: int)
      ensures this.urls == urls && selectedIndex == currentIndex && zoom == 1.0 && !open
    {
      this.urls := urls;
      selectedIndex := currentIndex;
      zoom := 1.0;
      open := false;
    }

    /** An empty list renders nothing. */
    predicate Renders() {
      |urls| > 0
    }

    /** The selected index names one of the items. */
    predicate IndexInRange()
      reads this
    {
      0 <= selectedIndex < |urls|
    }

    /** The kind of the item in the dialog; an index off the list reads `undefined`, shown as an image. */
    function CurrentKind(): (kind: MediaKind)
      reads this
      ensures !IndexInRange() ==> kind == Image
    {
      if IndexInRange() then KindOf(urls[selectedIndex]) else Image
    }

    /**
     * `!isVideo && !isAudio`: the zoom buttons show for an image, and for an
     * index off the list, where `currentUrl` is undefined and neither test holds.
     */
    function ZoomControlsShown(): (shown: bool)
      reads this
      ensures shown <==> (!IndexInRange()
        || (!LooksLikeVideo(urls[selectedIndex]) && !LooksLikeAudio(urls[selectedIndex])))
    {
      CurrentKind() == Image
    }

    /** The dialog of thumbnail `index` is open. */
    predicate DialogOpen(index: int)
      reads this
    {
      open && selectedIndex == index
    }

    /** At most one dialog is open at a time. */
    lemma OneDialogOpen(a: int, b: int)
      requires DialogOpen(a) && DialogOpen(b)
      ensures a == b
    {
    }

    /** `handleNext`: the following item, wrapping to the first; zoom back to 1. */
    method HandleNext()
      requires Renders()
      modifies this
      ensures selectedIndex == NextIndex(old(selectedIndex), |urls|)
      ensures zoom == 1.0 && open == old(open)
      ensures old(IndexInRange()) ==> IndexInRange()
    {
      selectedIndex := JsRemainder(selectedIndex + 1, |urls|);
      zoom := 1.0;
    }

    /** `handlePrev`: the preceding item, wrapping to the last; zoom back to 1. */
    method HandlePrev()
      requires Renders()
      modifies this
      ensures selectedIndex == PrevIndex(old(selectedIndex), |urls|)
      ensures zoom == 1.0 && open == old(open)
      ensures old(IndexInRange()) ==> IndexInRange()
    {
      selectedIndex := JsRemainder(selectedIndex - 1 + |urls|, |urls|);
      zoom := 1.0;
    }

    /** A thumbnail in the dialog: that item, zoom back to 1. */
    method SelectThumbnail(index: int)
      requires 0 <= index < |urls|
      modifies this
      ensures selectedIndex == index && zoom == 1.0 && open == old(open)
      ensures IndexInRange()
    {
      selectedIndex := index;
      zoom := 1.0;
    }

    /** A grid item's `onOpenChange`: opening selects that item; closing keeps the selection. Zoom is kept. */
    method OnOpenChange(index: int, isOpen: bool)
      modifies this
      ensures open == isOpen && zoom == old(zoom)
      ensures selectedIndex == (if isOpen then index else old(selectedIndex))
      ensures isOpen ==> DialogOpen(index)
      ensures !isOpen ==> forall k :: !DialogOpen(k)
    {
      open := isOpen;
      if isOpen {
        selectedIndex := index;
      }
    }
  }
}
