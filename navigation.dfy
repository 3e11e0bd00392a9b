/** Image navigation shared by both page variants: `previousImage`,
    `nextImage` and `setCurrentImage` are the same code in
    src/js/main-modern.js and src/js/main.js, and so is the rule that
    highlights the thumbnail or indicator of the current image. */
module Navigation {
  import opened Catalog

  /** `i < n - 1 ? i + 1 : 0`: one step forward in a gallery of n images. */
  function NextIndex(i: int, n: nat): (r: int)
    ensures 0 <= i < n ==> r == (i + 1) % n
    ensures n - 1 <= i ==> r == 0
    ensures -1 <= i ==> 0 <= r
  {
    if i < n - 1 then i + 1 else 0
  }

  /** `i > 0 ? i - 1 : n - 1`: one step back. With no images this is -1. */
  function PreviousIndex(i: int, n: nat): (r: int)
    ensures 0 <= i < n ==> r == (i - 1 + n) % n
    ensures i <= 0 ==> r == n - 1
    ensures i <= n ==> r < n
  {
    if i > 0 then i - 1 else n - 1
  }

  lemma PreviousUndoesNext(i: int, n: nat)
    requires 0 <= i < n
    ensures PreviousIndex(NextIndex(i, n), n) == i
  {
  }

  lemma NextUndoesPrevious(i: int, n: nat)
    requires 0 <= i < n
    ensures NextIndex(PreviousIndex(i, n), n) == i
  {
  }

  /** k successive calls of `nextImage` on the index. */
  function NextIndexTimes(k: nat, i: int, n: nat): int
  {
    if k == 0 then i else NextIndexTimes(k - 1, NextIndex(i, n), n)
  }

  lemma {:induction false} NextIndexTimesAdd(a: nat, b: nat, i: int, n: nat)
    ensures NextIndexTimes(b + a, i, n) == NextIndexTimes(a, NextIndexTimes(b, i, n), n)
  {
    if b > 0 {
      NextIndexTimesAdd(a, b - 1, NextIndex(i, n), n);
    }
  }

  /** Below the last image, k steps forward just add k. */
  lemma {:induction false} NextIndexTimesStraight(k: nat, i: int, n: nat)
    requires 0 <= i && i + k <= n - 1
    ensures NextIndexTimes(k, i, n) == i + k
  {
    if k > 0 {
      NextIndexTimesStraight(k - 1, i + 1, n);
    }
  }

  /** n calls of `nextImage` in a gallery of n images return to the start:
      stepping forward is a cycle of order n. */
  lemma {:induction false} NextCycle(i: int, n: nat)
    requires 0 <= i < n
    ensures NextIndexTimes(n, i, n) == i
  {
    NextIndexTimesAdd(i, n - i, i, n);
    NextIndexTimesAdd(1, n - 1 - i, i, n);
    NextIndexTimesStraight(n - 1 - i, i, n);
    assert NextIndexTimes(n - i, i, n) == 0;
    NextIndexTimesStraight(i, 0, n);
  }

  /** The index after `nextImage` with current project p and index i: the
      method returns early unless p exists and has an `images` field. */
  function AfterNext(p: Option<Project>, i: int): (r: int)
    ensures !HasImageList(p) ==> r == i
    ensures HasImageList(p) ==> r == NextIndex(i, ImageCount(p))
  {
    if HasImageList(p) then NextIndex(i, |p.value.images.value|) else i
  }

  /** The index after `previousImage`. */
  function AfterPrevious(p: Option<Project>, i: int): (r: int)
    ensures !HasImageList(p) ==> r == i
    ensures HasImageList(p) ==> r == PreviousIndex(i, ImageCount(p))
  {
    if HasImageList(p) then PreviousIndex(i, |p.value.images.value|) else i
  }

  /** The index after `setCurrentImage(k)`: k itself, with no bounds check. */
  function AfterSet(p: Option<Project>, i: int, k: int): (r: int)
    ensures HasImageList(p) ==> r == k
    ensures !HasImageList(p) ==> r == i
  {
    if HasImageList(p) then k else i
  }

  /** A valid index whenever the current project has at least one image. */
  predicate IndexValid(p: Option<Project>, i: int) {
    ImageCount(p) > 0 ==> 0 <= i < ImageCount(p)
  }

  lemma NavigationKeepsIndexValid(p: Option<Project>, i: int)
    requires IndexValid(p, i)
    ensures IndexValid(p, AfterNext(p, i)) && IndexValid(p, AfterPrevious(p, i))
  {
  }

  /** `images[i]`: defined exactly for an index in range (None stands for
      JavaScript's `undefined`). */
  function ImageAt(images: seq<Image>, i: int): (r: Option<Image>)
    ensures r.Some? <==> 0 <= i < |images|
    ensures r.Some? ==> r.value == images[i]
  {
    if 0 <= i < |images| then Some(images[i]) else None
  }

  /** Which of n thumbnails / indicators is highlighted when the current
      index is `current`: position k is, exactly when k == current. */
  function Highlights(n: nat, current: int): (r: seq<bool>)
    ensures |r| == n
    ensures forall k :: 0 <= k < n ==> (r[k] <==> k == current)
  {
    seq(n, k => k == current)
  }

  function CountTrue(s: seq<bool>): nat {
    if s == [] then 0 else CountTrue(s[..|s| - 1]) + (if s[|s| - 1] then 1 else 0)
  }

  /** Exactly one position is highlighted when the index is in range, and
      none when it is not. */
  lemma {:induction false} HighlightCount(n: nat, current: int)
    ensures CountTrue(Highlights(n, current)) == if 0 <= current < n then 1 else 0
  {
    if n > 0 {
      assert Highlights(n, current)[..n - 1] == Highlights(n - 1, current);
      HighlightCount(n - 1, current);
    }
  }

  /** The restyling loop of `updateModalImage`: every button in turn gets the
      accent style if its position is the current index and the dim style
      otherwise (true = accent). */
  method HighlightButtons(buttons: array<bool>, current: int)
    modifies buttons
    ensures buttons[..] == Highlights(buttons.Length, current)
  {
    for k := 0 to buttons.Length
      invariant forall j :: 0 <= j < k ==> buttons[j] == (j == current)
    {
      buttons[k] := k == current;
    }
  }
}
