/**
 * The project detail page (src/pages/ProjectDetail.tsx): the route's slug
 * is resolved to a project or to the not-found view, and a lightbox
 * gallery keeps an image index and an open/closed flag.
 */
module ProjectDetail {
  import opened Wrappers
  import opened Projects
  import opened ModArith

  /**
   * JavaScript's `%`: the remainder truncates toward zero, so it carries the
   * sign of the dividend (Dafny's `%` is Euclidean and never negative).
   */
  function JsRem(a: int, n: int): (r: int)
    requires n > 0
    ensures -n < r < n
    ensures a >= 0 ==> r >= 0
    ensures a <= 0 ==> r <= 0
    ensures r == a % n || r == a % n - n
  {
    if a >= 0 then a % n
    else
      var q, m := (-a) / n, (-a) % n;
      assert -a == q * n + m;
      if m == 0 then
        assert a == (-q) * n + 0;
        ModUnique(a, n, -q, 0);
        -m
      else
        assert a == (-q - 1) * n + (n - m);
        ModUnique(a, n, -q - 1, n - m);
        -m
  }

  /** `nextImage`: `(prev + 1) % images.length`, a step forward that wraps to the first image. */
  function NextIndex(i: int, n: int): (r: int)
    requires n > 0
    ensures 0 <= i < n ==> r == (if i == n - 1 then 0 else i + 1)
  {
    if 0 <= i < n then
      if i == n - 1 then ModUnique(i + 1, n, 1, 0); JsRem(i + 1, n)
      else ModUnique(i + 1, n, 0, i + 1); JsRem(i + 1, n)
    else JsRem(i + 1, n)
  }

  /** `prevImage`: `(prev - 1 + images.length) % images.length`, a step back that wraps to the last image. */
  function PrevIndex(i: int, n: int): (r: int)
    requires n > 0
    ensures 0 <= i < n ==> r == (if i == 0 then n - 1 else i - 1)
  {
    if 0 <= i < n then
      if i == 0 then ModUnique(i - 1 + n, n, 0, n - 1); JsRem(i - 1 + n, n)
      else ModUnique(i - 1 + n, n, 1, i - 1); JsRem(i - 1 + n, n)
    else JsRem(i - 1 + n, n)
  }

  /** The index after `k` clicks on "next" starting from `i`. */
  function NextTimes(i: int, n: int, k: nat): int
    requires n > 0
  {
    if k == 0 then i else NextIndex(NextTimes(i, n, k - 1), n)
  }

  /** On in-range indices, "prev" undoes "next" and "next" undoes "prev". */
  lemma NextPrevInverse(i: int, n: int)
    requires 0 <= i < n
    ensures 0 <= NextIndex(i, n) < n && PrevIndex(NextIndex(i, n), n) == i
    ensures 0 <= PrevIndex(i, n) < n && NextIndex(PrevIndex(i, n), n) == i
  {
  }

  /** `k` clicks on "next" from index `i` land on `(i + k) mod n`. */
  lemma {:induction false} NextTimesIsModulo(i: int, n: int, k: nat)
    requires 0 <= i < n
    ensures NextTimes(i, n, k) == (i + k) % n
  {
    if k > 0 {
      NextTimesIsModulo(i, n, k - 1);
      ModSucc(i + k - 1, n);
      var x := NextTimes(i, n, k - 1);
      assert 0 <= x < n;
      assert NextTimes(i, n, k) == NextIndex(x, n);
    }
  }

  /** From the first image, `k` clicks on "next" show image `k mod n`; `n` clicks return to the first. */
  lemma NextTimesFromStart(n: int, k: nat)
    requires n > 0
    ensures NextTimes(0, n, k) == k % n
    ensures NextTimes(0, n, n) == 0
  {
    NextTimesIsModulo(0, n, k);
    NextTimesIsModulo(0, n, n);
  }

  /**
   * Line 9: `slug ? getProjectBySlug(slug) : undefined`. A missing slug and
   * the empty slug (which JavaScript treats as false) are not looked up.
   */
  function ResolveRoute(slug: Option<string>): (r: Option<Project>)
    ensures r.None? <==> slug.None? || NoSlug(AllProjects(), slug.value)
    ensures r.Some? ==> r.value.slug == slug.value && r.value in AllProjects()
    ensures r.Some? ==> |r.value.images| > 0
  {
    if slug.None? || slug.value == "" then None else GetProjectBySlug(slug.value)
  }

  /** The page for one visit of `/work/:slug`. */
  class DetailPage {
    /** The resolved project; `None` renders the not-found view, which has no gallery controls. */
    const project: Option<Project>
    var currentImageIndex: int
    var isGalleryOpen: bool

    ghost predicate Valid()
      reads this
    {
      match project
      case None => currentImageIndex == 0 && !isGalleryOpen
      case Some(p) => |p.images| > 0 && 0 <= currentImageIndex < |p.images|
    }

    /** Whether the not-found view is rendered instead of the project. */
    predicate NotFound()
      reads this
    {
      project.None?
    }

    function ImageCount(): (n: nat)
      reads this
      requires Valid() && project.Some?
      ensures n >= 1
    {
      |project.value.images|
    }

    /** The page opens on the first image with the gallery closed, whatever the slug. */
    constructor (slug: Option<string>)
      ensures project == ResolveRoute(slug)
      ensures NotFound() <==> slug.None? || NoSlug(AllProjects(), slug.value)
      ensures currentImageIndex == 0 && !isGalleryOpen
      ensures Valid()
    {
      project := ResolveRoute(slug);
      currentImageIndex := 0;
      isGalleryOpen := false;
    }

    /**
     * Both arrows are disabled when there is at most one image. Disabling
     * loses nothing: exactly when they are disabled, a step would not move.
     */
    function ArrowsEnabled(): (b: bool)
      reads this
      requires Valid() && project.Some?
      ensures b <==> ImageCount() >= 2
      ensures b <==> NextIndex(currentImageIndex, ImageCount()) != currentImageIndex
      ensures b <==> PrevIndex(currentImageIndex, ImageCount()) != currentImageIndex
    {
      !(|project.value.images| <= 1)
    }

    /** The "next" arrow of the open gallery; a disabled arrow ignores the click. */
    method NextImage()
      requires Valid() && project.Some? && isGalleryOpen
      modifies this
      ensures Valid()
      ensures currentImageIndex ==
        if ArrowsEnabled() then NextIndex(old(currentImageIndex), ImageCount()) else old(currentImageIndex)
      ensures isGalleryOpen
    {
      var n := |project.value.images|;
      if !(n <= 1) {
        currentImageIndex := JsRem(currentImageIndex + 1, n);
      }
    }

    /** The "previous" arrow of the open gallery; a disabled arrow ignores the click. */
    method PrevImage()
      requires Valid() && project.Some? && isGalleryOpen
      modifies this
      ensures Valid()
      ensures currentImageIndex ==
        if ArrowsEnabled() then PrevIndex(old(currentImageIndex), ImageCount()) else old(currentImageIndex)
      ensures isGalleryOpen
    {
      var n := |project.value.images|;
      if !(n <= 1) {
        currentImageIndex := JsRem(currentImageIndex - 1 + n, n);
      }
    }

    /** Clicking the hero image opens the gallery where it was left; the index is not reset. */
    method OpenFromHero()
      requires Valid() && project.Some?
      modifies this
      ensures Valid()
      ensures isGalleryOpen && currentImageIndex == old(currentImageIndex)
    {
      isGalleryOpen := true;
    }

    /** Clicking thumbnail `idx` of the grid jumps to that image and opens the gallery. */
    method OpenAt(idx: int)
      requires Valid() && project.Some?
      requires 0 <= idx < |project.value.images|
      modifies this
      ensures Valid()
      ensures isGalleryOpen && currentImageIndex == idx
    {
      currentImageIndex := idx;
      isGalleryOpen := true;
    }

    /** The close button hides the gallery and keeps the index. */
    method Close()
      requires Valid() && project.Some? && isGalleryOpen
      modifies this
      ensures Valid()
      ensures !isGalleryOpen && currentImageIndex == old(currentImageIndex)
    {
      isGalleryOpen := false;
    }

    /** The image shown in the open gallery: the one the counter names. */
    function ShownImage(): (img: Image)
      reads this
      requires Valid() && project.Some?
      ensures img in project.value.images
      ensures img == project.value.images[Counter().0 - 1]
    {
      project.value.images[currentImageIndex]
    }

    /**
     * The counter under the gallery, "position / total": the position is the
     * current index counted from one, and lies in 1..total.
     */
    function Counter(): (c: (int, int))
      reads this
      requires Valid() && project.Some?
      ensures c.0 == currentImageIndex + 1
      ensures 1 <= c.0 <= c.1 && c.1 == ImageCount()
    {
      (currentImageIndex + 1, |project.value.images|)
    }
  }

  /**
   * A visit of `/work/expense-tracker-pro`: a thumbnail, close and the hero
   * resume at the thumbnail's image, and four "next" clicks from there come
   * back to it.
   */
  method VisitExpenseTracker() returns (resumed: int, afterCycle: int)
    ensures resumed == 2 && afterCycle == 2
  {
    ExpenseTrackerLookup();
    var page := new DetailPage(Some("expense-tracker-pro"));
    assert !page.NotFound() && page.ImageCount() == 4;
    page.OpenAt(2);
    page.Close();
    page.OpenFromHero();
    resumed := page.currentImageIndex;
    page.NextImage();
    page.NextImage();
    page.NextImage();
    page.NextImage();
    afterCycle := page.currentImageIndex;
  }
}
