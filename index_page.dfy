/**
 * The single-page home (src/pages/Index.tsx): a three-way view selector,
 * click ripples that expire by id, the "recent works" list and the
 * preview shown while a project card is hovered.
 */
module IndexPage {
  import opened Wrappers
  import opened Projects

  datatype View = Home | About | Work

  /** The navigation buttons, in the order they are rendered. */
  const NavViews: seq<View> := [Home, About, Work]

  /** A click ripple: its id is the click's millisecond timestamp. */
  datatype Ripple = Ripple(id: int, x: int, y: int)

  /** The content blocks rendered for `current`: one guarded block per view, in page order. */
  function RenderedBlocks(current: View): (blocks: seq<View>)
    ensures blocks == [current]
  {
    (if current == Home then [Home] else []) +
    (if current == About then [About] else []) +
    (if current == Work then [Work] else [])
  }

  /**
   * For each navigation button, whether it carries the accent style:
   * exactly one button is accented, the one for the current view.
   */
  function NavAccents(current: View): (accents: seq<bool>)
    ensures |accents| == |NavViews|
    ensures forall k :: 0 <= k < |NavViews| ==> (accents[k] <==> NavViews[k] == current)
    ensures exists k :: 0 <= k < |NavViews| && NavViews[k] == current && accents[k]
    ensures forall j, k :: 0 <= j < k < |NavViews| ==> !(accents[j] && accents[k])
  {
    var accents := seq(|NavViews|, k requires 0 <= k < |NavViews| => NavViews[k] == current);
    var k := if current == Home then 0 else if current == About then 1 else 2;
    assert NavViews[k] == current;
    accents
  }

  /** `prev.filter((r) => r.id !== id)`: the ripples whose id differs from `id`, in their order. */
  function WithoutId(rs: seq<Ripple>, id: int): (r: seq<Ripple>)
    ensures |r| <= |rs|
    ensures forall q :: q in r <==> q in rs && q.id != id
    ensures (forall k :: 0 <= k < |rs| ==> rs[k].id != id) ==> r == rs
    decreases |rs|
  {
    if |rs| == 0 then []
    else
      var rest := WithoutId(rs[1..], id);
      assert forall q :: q in rs <==> q == rs[0] || q in rs[1..];
      if rs[0].id == id then rest else [rs[0]] + rest
  }

  /** Filtering distributes over concatenation: expiry keeps the survivors' order. */
  lemma {:induction false} WithoutIdAppend(a: seq<Ripple>, b: seq<Ripple>, id: int)
    ensures WithoutId(a + b, id) == WithoutId(a, id) + WithoutId(b, id)
    decreases |a|
  {
    if |a| > 0 {
      assert (a + b)[1..] == a[1..] + b;
      WithoutIdAppend(a[1..], b, id);
    } else {
      assert a + b == b;
    }
  }

  /** A click followed by that click's own expiry leaves the ripples as before, if no older ripple shares the id. */
  lemma ClickThenExpire(rs: seq<Ripple>, id: int, x: int, y: int)
    requires forall k :: 0 <= k < |rs| ==> rs[k].id != id
    ensures WithoutId(rs + [Ripple(id, x, y)], id) == rs
  {
    WithoutIdAppend(rs, [Ripple(id, x, y)], id);
    assert WithoutId([Ripple(id, x, y)], id) == [];
  }

  /** Two clicks in the same millisecond share an id, so the first expiry removes both ripples. */
  lemma SameMillisecondClicks(rs: seq<Ripple>, id: int, x1: int, y1: int, x2: int, y2: int)
    ensures WithoutId(rs + [Ripple(id, x1, y1)] + [Ripple(id, x2, y2)], id) == WithoutId(rs, id)
  {
    WithoutIdAppend(rs + [Ripple(id, x1, y1)], [Ripple(id, x2, y2)], id);
    WithoutIdAppend(rs, [Ripple(id, x1, y1)], id);
    assert WithoutId([Ripple(id, x1, y1)], id) == [];
    assert WithoutId([Ripple(id, x2, y2)], id) == [];
  }

  /** `projects.slice(0, 5)`: at most five projects, a prefix of the list, all of it when it is shorter. */
  function RecentWorks(ps: seq<Project>): (r: seq<Project>)
    ensures |r| <= 5
    ensures r <= ps
    ensures |ps| <= 5 ==> r == ps
    ensures |ps| >= 5 ==> |r| == 5
  {
    if |ps| <= 5 then ps else ps[..5]
  }

  /** `projects.find((p) => p.id === id)`: the first project in list order with that id. */
  function FindById(ps: seq<Project>, id: int): (r: Option<Project>)
    ensures r.None? <==> forall i :: 0 <= i < |ps| ==> ps[i].id != id
    ensures r.Some? ==> exists i :: 0 <= i < |ps| && ps[i] == r.value && r.value.id == id &&
                                    forall j :: 0 <= j < i ==> ps[j].id != id
  {
    FindFirst(ps, (q: Project) => q.id == id)
  }

  /** JavaScript truthiness of `hoveredProject` (a number or null): null and 0 are false. */
  predicate Truthy(hovered: Option<int>) {
    hovered.Some? && hovered.value != 0
  }

  /**
   * The preview's `src`: `projects.find((p) => p.id === hovered)?.images[0]`,
   * read only while `hovered` is truthy. `None` stands for `undefined`.
   */
  function PreviewImage(ps: seq<Project>, hovered: Option<int>): (r: Option<Image>)
    ensures r.Some? ==> (Truthy(hovered) &&
      exists i :: 0 <= i < |ps| && ps[i].id == hovered.value && |ps[i].images| > 0 &&
                  r.value == ps[i].images[0] && forall j :: 0 <= j < i ==> ps[j].id != hovered.value)
    ensures (r.None? && Truthy(hovered) && WellFormed(ps)) ==>
      (forall i :: 0 <= i < |ps| ==> ps[i].id != hovered.value)
  {
    if !Truthy(hovered) then None
    else
      match FindById(ps, hovered.value)
      case None => None
      case Some(p) => if |p.images| > 0 then Some(p.images[0]) else None
  }

  /** The state of the home page. */
  class Page {
    var currentView: View
    var hoveredProject: Option<int>
    var mouseX: int
    var mouseY: int
    var ripples: seq<Ripple>

    constructor ()
      ensures currentView == Home && hoveredProject == None
      ensures mouseX == 0 && mouseY == 0 && ripples == []
    {
      currentView := Home;
      hoveredProject := None;
      mouseX, mouseY := 0, 0;
      ripples := [];
    }

    /** A navigation button sets the view to its own value; nothing else changes. */
    method SelectView(v: View)
      modifies this
      ensures currentView == v
      ensures hoveredProject == old(hoveredProject) && ripples == old(ripples)
      ensures mouseX == old(mouseX) && mouseY == old(mouseY)
    {
      currentView := v;
    }

    /** `handleGlobalClick`: one ripple with the click's timestamp and coordinates is appended. */
    method Click(now: int, x: int, y: int)
      modifies this
      ensures ripples == old(ripples) + [Ripple(now, x, y)]
      ensures currentView == old(currentView) && hoveredProject == old(hoveredProject)
      ensures mouseX == old(mouseX) && mouseY == old(mouseY)
    {
      ripples := ripples + [Ripple(now, x, y)];
    }

    /**
     * A click on a navigation button: its own handler sets the view, and
     * the click then bubbles to the page's root, whose handler adds a
     * ripple. Re-selecting the current view therefore changes only the
     * ripples, by exactly one.
     */
    method NavClick(v: View, now: int, x: int, y: int)
      modifies this
      ensures currentView == v
      ensures ripples == old(ripples) + [Ripple(now, x, y)]
      ensures hoveredProject == old(hoveredProject)
      ensures mouseX == old(mouseX) && mouseY == old(mouseY)
    {
      SelectView(v);
      Click(now, x, y);
    }

    /** The 600 ms timer of the click with timestamp `id` fires: every ripple with that id goes. */
    method ExpireRipple(id: int)
      modifies this
      ensures ripples == WithoutId(old(ripples), id)
      ensures currentView == old(currentView) && hoveredProject == old(hoveredProject)
      ensures mouseX == old(mouseX) && mouseY == old(mouseY)
    {
      ripples := WithoutId(ripples, id);
    }

    /** Entering a recent-work card records its project id. */
    method HoverEnter(projectId: int)
      modifies this
      ensures hoveredProject == Some(projectId)
      ensures currentView == old(currentView) && ripples == old(ripples)
      ensures mouseX == old(mouseX) && mouseY == old(mouseY)
    {
      hoveredProject := Some(projectId);
    }

    /** Leaving a card clears the hovered project. */
    method HoverLeave()
      modifies this
      ensures hoveredProject == None
      ensures currentView == old(currentView) && ripples == old(ripples)
      ensures mouseX == old(mouseX) && mouseY == old(mouseY)
    {
      hoveredProject := None;
    }

    /** The window's mousemove listener records the mouse for placing the preview. */
    method MouseMove(x: int, y: int)
      modifies this
      ensures mouseX == x && mouseY == y
      ensures currentView == old(currentView) && hoveredProject == old(hoveredProject)
      ensures ripples == old(ripples)
    {
      mouseX, mouseY := x, y;
    }

    /**
     * The preview lives inside the home block and shows while the hovered
     * id is truthy. Hovering a bundled project's card on the home view
     * shows it, with that project's first image.
     */
    function PreviewVisible(): (b: bool)
      reads this
      ensures b ==> currentView == Home
      ensures !Truthy(hoveredProject) ==> !b && PreviewImage(AllProjects(), hoveredProject).None?
      ensures forall k :: 0 <= k < |AllProjects()| && b && AllProjects()[k].id == hoveredProject.value ==>
        PreviewImage(AllProjects(), hoveredProject) == Some(AllProjects()[k].images[0])
      ensures forall k :: 0 <= k < |AllProjects()| && currentView == Home && hoveredProject == Some(AllProjects()[k].id) ==>
        b && PreviewImage(AllProjects(), hoveredProject) == Some(AllProjects()[k].images[0])
    {
      if currentView == Home && Truthy(hoveredProject) then
        forall k | 0 <= k < |AllProjects()| && AllProjects()[k].id == hoveredProject.value {
          HoverPreviewsFirstImage(AllProjects(), k);
        }
        true
      else false
    }
  }

  /** The bundled list has fewer than five projects, so "recent works" lists all of them. */
  lemma RecentWorksListsAll()
    ensures RecentWorks(AllProjects()) == AllProjects()
  {
  }

  /** In a list with distinct ids, hovering a card with a non-zero id previews that project's first image. */
  lemma HoverPreviewsFirstImage(ps: seq<Project>, k: int)
    requires WellFormed(ps)
    requires 0 <= k < |ps| && ps[k].id != 0
    ensures PreviewImage(ps, Some(ps[k].id)) == Some(ps[k].images[0])
  {
  }

  /**
   * A session on the home page: it opens on "home". Clicking the active
   * "home" button and then the page in the same millisecond makes two
   * ripples, which that millisecond's expiry clears together. Clicking
   * "work" shows "work" and leaves that click's ripple.
   */
  method HomeSession() returns (view: View, left: seq<Ripple>)
    ensures view == Work && left == [Ripple(2000, 5, 5)]
  {
    var page := new Page();
    page.NavClick(Home, 1000, 10, 20);
    assert page.currentView == Home;
    page.Click(1000, 30, 40);
    page.ExpireRipple(1000);
    SameMillisecondClicks([], 1000, 10, 20, 30, 40);
    assert [] + [Ripple(1000, 10, 20)] + [Ripple(1000, 30, 40)] == [Ripple(1000, 10, 20), Ripple(1000, 30, 40)];
    page.NavClick(Work, 2000, 5, 5);
    view, left := page.currentView, page.ripples;
  }
}
