/**
 * components/views/projects/project-gallery.tsx: a main image, a thumbnail
 * grid and a lightbox whose selected index cycles through the images.
 * `selectedImage` is the one piece of state (`null` when the lightbox is
 * closed).
 */
module Gallery {
  import opened Opt
  import opened Text

  const Placeholder: string := "/placeholder.svg"

  /** `nextImage`'s index: one on, wrapping from the last image to the first. */
  function NextIndex(i: int, n: int): (j: int)
    requires n > 0
    ensures 0 <= i < n - 1 ==> j == i + 1
    ensures i == n - 1 ==> j == 0
    ensures 0 <= j < n
  {
    (i + 1) % n
  }

  /** `prevImage`'s index: one back, wrapping from the first image to the last. */
  function PrevIndex(i: int, n: int): (j: int)
    ensures i == 0 ==> j == n - 1
    ensures i != 0 ==> j == i - 1
  {
    if i == 0 then n - 1 else i - 1
  }

  /** Previous undoes next and next undoes previous, on every valid index. */
  lemma NextPrevInverse(i: int, n: int)
    requires 0 <= i < n
    ensures PrevIndex(NextIndex(i, n), n) == i
    ensures NextIndex(PrevIndex(i, n), n) == i
  {
  }

  /** `k` presses of the next button. */
  function NextTimes(i: int, k: nat, n: int): int
    requires n > 0
  {
    if k == 0 then i else NextIndex(NextTimes(i, k - 1, n), n)
  }

  /** Up to one full round, `k` presses of next move `k` places on, wrapping once past the end. */
  lemma {:induction false} NextTimesIsRotation(i: int, k: nat, n: int)
    requires 0 <= i < n && k <= n
    ensures NextTimes(i, k, n) == if i + k < n then i + k else i + k - n
    decreases k
  {
    if k > 0 {
      NextTimesIsRotation(i, k - 1, n);
    }
  }

  /** Going once round the whole gallery comes back to where it started. */
  lemma FullCircle(i: int, n: int)
    requires 0 <= i < n
    ensures NextTimes(i, n, n) == i
  {
    NextTimesIsRotation(i, n, n);
  }

  /** The lightbox image: `images[selectedImage] || '/placeholder.svg'`. */
  function Shown(images: seq<string>, i: int): (src: string)
    ensures 0 <= i < |images| && images[i] != "" ==> src == images[i]
    ensures !(0 <= i < |images|) || images[i] == "" ==> src == Placeholder
  {
    if 0 <= i < |images| && images[i] != "" then images[i] else Placeholder
  }

  /** The counter text `{selectedImage + 1} / {images.length}`. */
  function Counter(i: nat, n: nat): string {
    NatToString(i + 1) + " / " + NatToString(n)
  }

  /** The counter text reads back as one position and one total. */
  lemma CounterReadsBack(i: nat, n: nat, i': nat, n': nat)
    requires Counter(i, n) == Counter(i', n')
    ensures i == i' && n == n'
  {
    var a, b := NatToString(i + 1), NatToString(n);
    var a', b' := NatToString(i' + 1), NatToString(n');
    var s := Counter(i, n);
    assert s == a + (" / " + b) && s == a' + (" / " + b');
    // the first space ends the digits on either reading
    assert s[|a|] == ' ' && s[|a'|] == ' ';
    assert |a| == |a'|;
    assert a == s[..|a|] == a';
    assert b == s[|a| + 3..] == b';
    NatToStringInjective(i + 1, i' + 1);
    NatToStringInjective(n, n');
  }

  class ProjectGallery {
    const images: seq<string>
    var selectedImage: Option<int>

    /** The selection stays on an image (index 0 even when there is none). */
    predicate Valid()
      reads this
    {
      selectedImage.Some? ==> 0 <= selectedImage.value < (if |images| == 0 then 1 else |images|)
    }

    constructor (images: seq<string>)
      ensures this.images == images && selectedImage == None && Valid()
    {
      this.images := images;
      selectedImage := None;
    }

    /** A click on the main image opens the lightbox at the first image. */
    method OpenMain()
      modifies this
      ensures selectedImage == Some(0) && Valid()
    {
      selectedImage := Some(0);
    }

    /** A click on thumbnail `k` of `images.slice(1)` opens the image after the first `k + 1`. */
    method OpenThumbnail(k: nat)
      requires k < |images| - 1
      requires Valid()
      modifies this
      ensures selectedImage == Some(k + 1) && Valid()
      ensures Shown(images, selectedImage.value) == Shown(images[1..], k)
    {
      selectedImage := Some(k + 1);
    }

    /** `nextImage`: with the lightbox closed nothing happens. */
    method NextImage()
      requires Valid() && |images| >= 1
      modifies this
      ensures old(selectedImage).None? ==> selectedImage == None
      ensures old(selectedImage).Some? ==> selectedImage == Some(NextIndex(old(selectedImage).value, |images|))
      ensures Valid()
    {
      if selectedImage.Some? {
        selectedImage := Some(NextIndex(selectedImage.value, |images|));
      }
    }

    /** `prevImage`: with the lightbox closed nothing happens. */
    method PrevImage()
      requires Valid() && |images| >= 1
      modifies this
      ensures old(selectedImage).None? ==> selectedImage == None
      ensures old(selectedImage).Some? ==> selectedImage == Some(PrevIndex(old(selectedImage).value, |images|))
      ensures Valid()
    {
      if selectedImage.Some? {
        selectedImage := Some(PrevIndex(selectedImage.value, |images|));
      }
    }

    /** The backdrop and the close button both clear the selection. */
    method Close()
      modifies this
      ensures selectedImage == None && Valid()
    {
      selectedImage := None;
    }
  }
}
