# Portfolio site UI state, modelled in Dafny

This project models the behaviour behind a static personal portfolio site:
the project list and its lookup by URL slug, the project detail page with
its lightbox gallery, the home page's view selector, click ripples,
"recent works" list and hover preview, the custom cursor's trail, the
theme toggle, and the marquee ticker. Each source file is one module:

| module | file | source |
|---|---|---|
| `Projects` | projects.dfy | src/data/projects.ts |
| `ProjectDetail` | project_detail.dfy | src/pages/ProjectDetail.tsx |
| `IndexPage` | index_page.dfy | src/pages/Index.tsx |
| `CustomCursor` | custom_cursor.dfy | src/components/CustomCursor.tsx |
| `Theme` | theme_toggle.dfy | src/components/ThemeToggle.tsx |
| `Marquee` | marquee.dfy | src/components/Marquee.tsx |
| `Wrappers`, `ModArith` | wrappers.dfy, mod_arith.dfy | helpers: `Option`, and division facts |

State that the source changes in place is a class: `DetailPage`
(the image index and open flag), `Page` (the view, ripples, hovered
project and mouse position), `Cursor` (mouse position and trail), `ThemeToggle` (the
flag plus the document root's "dark" class and local storage, modelled as
fields) and `Ticker` (the marquee position). The pure parts are functions:
the slug and id lookups, the index arithmetic, the trail window, the
theme resolution and the marquee step. Each method's postcondition ties
the new state to those functions. The lemmas about the functions carry the
properties.

Browser and clock inputs become parameters. The route's slug is an
`Option<string>`. `Date.now()` is the `now` argument of a click or a
mouse move. The colour-scheme preference, a throwing storage read and a
throwing storage write are booleans. The marquee's `scrollWidth` is a
natural number passed to each frame. Ripple expiry and animation frames
are explicit method calls.

Some details follow the code rather than a looser reading of it:
- JavaScript's `%` truncates toward zero (`JsRem`). The gallery's operands
  are never negative, so it agrees with the Euclidean remainder there.
- The route's slug is looked up only when it is truthy. An empty slug
  goes straight to the not-found view.
- The hover preview checks `hoveredProject` for truthiness, so a project
  with id 0 would get no preview. No bundled project has id 0.
- The arrows are `disabled` when a project has at most one image. A click
  on them then does nothing.
- A click on a navigation button bubbles to the page root, whose handler
  adds a ripple. So re-selecting the current view leaves the view as it
  is but still adds one ripple (`NavClick`).
- A stored theme counts as dark only when it is exactly `"dark"`.
- Before mounting, `isDark` is false while the root class is whatever the
  page had. Two toggles restore the root class only from a state where the
  class mirrors the flag. A successful mount and every toggle produce such
  a state.
- The marquee compares `|position|` with `scrollWidth / 2`, a real
  division. So the reset test is exactly `2 * |position| >= scrollWidth`.
  The `speed` prop is stored but never read, and each frame moves one
  pixel.
- The gallery's index and open flag are reset only by creating the page.
  The component has no reset logic of its own for a changed slug.

## Model

| member | source | states |
|---|---|---|
| Projects.AllProjects | src/data/projects.ts:21-36 | the bundled list has one project, every project has at least one image and a non-empty slug, and ids and slugs are pairwise distinct |
| Projects.FindFirst | src/data/projects.ts:39 | `find`: the result is absent exactly when no element satisfies the predicate; a found element satisfies it and is the first in order that does |
| Projects.FindBySlug | src/data/projects.ts:39 | the result is absent exactly when no project has the slug; a found project has that slug and is the first one in list order that does |
| Projects.GetProjectBySlug | src/data/projects.ts:38-40 | the lookup over the bundled list: absent iff no bundled project has the slug; a found project has the slug, is in the list and has an image |
| Projects.FindOwnSlug | src/data/projects.ts:21-40 | in a list with distinct slugs, looking up a project's own slug yields that project |
| Projects.ExpenseTrackerLookup | src/data/projects.ts:21-40 | "expense-tracker-pro" resolves to project 1, which has four images |
| ProjectDetail.JsRem | src/pages/ProjectDetail.tsx:30-36 | JavaScript's remainder: strictly between -n and n, with the dividend's sign, and equal to the Euclidean remainder or that minus n |
| ProjectDetail.NextIndex | src/pages/ProjectDetail.tsx:30-32 | on an in-range index, "next" moves one image on and wraps from the last image to the first |
| ProjectDetail.PrevIndex | src/pages/ProjectDetail.tsx:34-36 | on an in-range index, "prev" moves one image back and wraps from the first image to the last (n - 1) |
| ProjectDetail.NextPrevInverse | src/pages/ProjectDetail.tsx:30-36 | both steps stay in range, "prev" after "next" and "next" after "prev" return the original index |
| ProjectDetail.NextTimesIsModulo | src/pages/ProjectDetail.tsx:30-32 | k clicks on "next" from index i land on (i + k) mod n |
| ProjectDetail.NextTimesFromStart | src/pages/ProjectDetail.tsx:30-32 | k clicks on "next" from the first image land on k mod n, and n clicks come back to the first image |
| ProjectDetail.ResolveRoute | src/pages/ProjectDetail.tsx:8-28 | the not-found view is taken exactly when the slug is missing or no project has it; otherwise the project has that slug, is bundled and has an image |
| ProjectDetail.DetailPage.constructor | src/pages/ProjectDetail.tsx:7-11 | the page holds the resolved project, starts on image 0 with the gallery closed, and is not-found exactly when the route does not resolve |
| ProjectDetail.DetailPage.ImageCount | src/pages/ProjectDetail.tsx:31 | a found project's gallery has at least one image |
| ProjectDetail.DetailPage.ArrowsEnabled | src/pages/ProjectDetail.tsx:234-248 | the arrows are enabled iff the project has at least two images, and that is exactly when a "next" or a "prev" step would move the index, so disabling them loses no movement |
| ProjectDetail.DetailPage.NextImage | src/pages/ProjectDetail.tsx:242-248 | with the arrow enabled the index becomes NextIndex of the old one, otherwise it stays; the gallery stays open; only offered on a found project's open gallery |
| ProjectDetail.DetailPage.PrevImage | src/pages/ProjectDetail.tsx:234-240 | with the arrow enabled the index becomes PrevIndex of the old one, otherwise it stays; the gallery stays open |
| ProjectDetail.DetailPage.OpenFromHero | src/pages/ProjectDetail.tsx:105-111 | the gallery opens and the index is unchanged, so it resumes where it was left |
| ProjectDetail.DetailPage.OpenAt | src/pages/ProjectDetail.tsx:180-191 | clicking thumbnail idx sets the index to idx and opens the gallery |
| ProjectDetail.DetailPage.Close | src/pages/ProjectDetail.tsx:227-228 | the gallery closes and the index is unchanged |
| ProjectDetail.DetailPage.ShownImage | src/pages/ProjectDetail.tsx:257-261 | the shown image is one of the project's images, and exactly the one at the position the counter reads (the current index) |
| ProjectDetail.DetailPage.Counter | src/pages/ProjectDetail.tsx:264-266 | the counter reads position / total with position = current index + 1 and 1 <= position <= total = image count |
| ProjectDetail.VisitExpenseTracker | src/pages/ProjectDetail.tsx:110-248 | on "expense-tracker-pro": thumbnail 2, close, hero reopen resumes at 2, and four "next" clicks come back to 2 |
| IndexPage.RenderedBlocks | src/pages/Index.tsx:109-330 | exactly one content block is rendered, the one of the current view |
| IndexPage.NavAccents | src/pages/Index.tsx:92-98 | exactly one navigation button is accented: the one whose view is the current view |
| IndexPage.WithoutId | src/pages/Index.tsx:43 | expiry keeps exactly the ripples whose id differs, never adds any, and changes nothing when no ripple has the id |
| IndexPage.WithoutIdAppend | src/pages/Index.tsx:43 | expiry distributes over concatenation, so the survivors keep their order |
| IndexPage.ClickThenExpire | src/pages/Index.tsx:39-44 | a click followed by its own expiry restores the ripple list when no older ripple shares the id |
| IndexPage.SameMillisecondClicks | src/pages/Index.tsx:40-43 | two clicks with the same timestamp are both removed by one expiry |
| IndexPage.RecentWorks | src/pages/Index.tsx:142 | recent works is a prefix of the project list of length min(5, count), the whole list when it has at most five |
| IndexPage.RecentWorksListsAll | src/pages/Index.tsx:142 | with the bundled list, recent works lists every project |
| IndexPage.FindById | src/pages/Index.tsx:178 | absent iff no project has the id; otherwise the first project in list order with that id |
| IndexPage.PreviewImage | src/pages/Index.tsx:164-181 | a preview image exists only for a truthy hovered id and is images[0] of the first project with that id; for a well-formed list it is missing only when no project has the id |
| IndexPage.HoverPreviewsFirstImage | src/pages/Index.tsx:148-178 | with distinct ids, hovering a card with a non-zero id previews that project's first image |
| IndexPage.Page.constructor | src/pages/Index.tsx:17-21 | the page starts on "home" with no hovered project, the mouse at (0, 0) and no ripples |
| IndexPage.Page.SelectView | src/pages/Index.tsx:95 | the button's own handler: the view becomes the button's value and nothing else changes |
| IndexPage.Page.NavClick | src/pages/Index.tsx:39-95 | a whole click on a navigation button: the view becomes the button's value and, as the click bubbles to the page root, exactly one ripple with the click's timestamp and coordinates is appended; hover and mouse are unchanged, so re-selecting the current view changes only the ripples |
| IndexPage.Page.Click | src/pages/Index.tsx:39-41 | exactly one ripple with the click's timestamp and coordinates is appended; the existing ripples and the rest of the state are unchanged |
| IndexPage.Page.ExpireRipple | src/pages/Index.tsx:42-44 | the ripple list becomes WithoutId of the old list; the rest of the state is unchanged |
| IndexPage.Page.HoverEnter | src/pages/Index.tsx:148 | the hovered project becomes the card's id; nothing else changes |
| IndexPage.Page.HoverLeave | src/pages/Index.tsx:149 | the hovered project is cleared; nothing else changes |
| IndexPage.Page.PreviewVisible | src/pages/Index.tsx:110-178 | the preview shows only in the home view and never for a falsy hovered id (which requests no image either); on the home view, hovering a bundled project's card shows it, with that project's first image |
| IndexPage.Page.MouseMove | src/pages/Index.tsx:30-33 | the recorded mouse position becomes the event's coordinates; nothing else changes |
| IndexPage.HomeSession | src/pages/Index.tsx:17-95 | starting on "home": a click on the active "home" button and a page click in the same millisecond make two ripples that one expiry clears; a click on "work" shows "work" and leaves exactly that click's ripple |
| CustomCursor.LastN | src/components/CustomCursor.tsx:14 | `slice(-k)` has min(k, length) elements and is a suffix of the input |
| CustomCursor.NextTrail | src/components/CustomCursor.tsx:13-14 | the new trail has min(old + 1, 9) points, ends with the new point, and before it holds the last min(old, 8) old points in order; a full trail of 9 drops exactly its oldest point |
| CustomCursor.WindowStep | src/components/CustomCursor.tsx:14 | one move maps the 9-point window of a history onto the 9-point window of the history plus that move |
| CustomCursor.ReplayIsWindow | src/components/CustomCursor.tsx:5-14 | after any sequence of moves from the empty trail, the trail is exactly the last min(9, moves) samples in order, so it never exceeds 9 |
| CustomCursor.Cursor.constructor | src/components/CustomCursor.tsx:5-6 | the mouse starts at (0, 0) with an empty trail |
| CustomCursor.Cursor.MouseMove | src/components/CustomCursor.tsx:9-15 | the mouse becomes the event's coordinates, the trail becomes NextTrail of the old one, and the trail stays the 9-sample window of all moves |
| Theme.ReloadRestoresToggle | src/components/ThemeToggle.tsx:13-43 | the persistence round trip: after a toggle whose write succeeds, a fresh mount over that storage yields the toggled flag and root class, whatever the system preference and the new page's root class |
| Theme.FirstVisitFollowsSystem | src/components/ThemeToggle.tsx:13-24 | with nothing stored under "theme", the first mount sets the flag and root class iff the system prefers dark, and writes nothing |
| Theme.AfterMount | src/components/ThemeToggle.tsx:8-28 | mounting always marks the component mounted and never writes storage; if a read throws, the flag and root class are untouched; otherwise both are set iff the initial theme is exactly "dark" |
| Theme.AfterToggle | src/components/ThemeToggle.tsx:30-47 | the flag flips, the root class follows the new flag, and the new theme string is stored under "theme" unless the write throws, in which case storage is unchanged and the flip stays |
| Theme.ToggleTwice | src/components/ThemeToggle.tsx:30-47 | two toggles restore the flag, and the root class from a synced state; a successful second write leaves the original theme stored; two failed writes leave storage unchanged |
| Theme.StoredNonDarkIsLight | src/components/ThemeToggle.tsx:15-24 | any stored string other than exactly "dark" mounts the light theme |
| Theme.ThemeToggle.constructor | src/components/ThemeToggle.tsx:5-6 | before mounting the component is unmounted with the flag false, over the browser's root class and storage |
| Theme.ThemeToggle.Mount | src/components/ThemeToggle.tsx:8-28 | the new state is AfterMount of the old one |
| Theme.ThemeToggle.HandleToggle | src/components/ThemeToggle.tsx:30-47 | the new state is AfterToggle of the old one, so the root class mirrors the flag; only offered once mounted |
| Theme.FirstVisitDark | src/components/ThemeToggle.tsx:8-47 | with empty storage and a dark preference the page mounts dark, and two toggles leave it dark with "dark" stored |
| Marquee.DuplicatedIsSeamless | src/components/Marquee.tsx:29 | in the doubled list every run as long as the item list that starts in the first half is a rotation of the items, and each entry equals the one an item-list length further on, so the snap back at half width shows the same content |
| Marquee.Step | src/components/Marquee.tsx:16-22 | a frame moves the position one pixel left or resets it to 0; from a position <= 0 it stays <= 0 and is either 0 or less than half the width from 0 |
| Marquee.Period | src/components/Marquee.tsx:18-19 | the period is the least p >= 1 with 2p >= width |
| Marquee.AfterIsPeriodic | src/components/Marquee.tsx:15-20 | with a fixed width, the position after k frames from 0 is -(k mod p) |
| Marquee.Ticker.constructor | src/components/Marquee.tsx:8-15 | the ticker keeps its items and speed and starts at position 0 |
| Marquee.Ticker.Frame | src/components/Marquee.tsx:16-22 | the new position is Step of the old one for this frame's width and is written to the transform; it stays <= 0 and is 0 or within half the width; speed is not read |

## Left out

- JSX markup, CSS classes and framer-motion animations, including enter and exit transitions and delays. They are presentation only.
- The live clock and `formatTime` (src/pages/Index.tsx:24-27, 47-49). They depend on wall-clock time and locale formatting.
- Timer and frame scheduling: the 600 ms `setTimeout`, `setInterval`, and `requestAnimationFrame`/`cancelAnimationFrame`. Expiry and frames are explicit calls.
- `window.scrollTo(0, 0)` on the detail page (src/pages/ProjectDetail.tsx:13-15). It is a browser effect with no state.
- The marquee's guard for a missing element reference (src/components/Marquee.tsx:12-13). After mounting the reference is always set.
- Trail dot size, opacity and glow, and the ripple and preview pixel offsets. They are floating-point presentation. Coordinates are integers.
- Static content: services, experience cards and social links. Image assets are opaque strings.
- src/components/Timeline.tsx and src/components/FloatingActionMenu.tsx. They render their props and hold one hover flag.
- A project with no images. Its arrows would be disabled, so `% 0` never runs, but the hero click would open a modal showing `images[0]` as undefined and the counter "1 / 0". `DetailPage` assumes at least one image, which every bundled project has (`AllProjects`, `ResolveRoute`).
- The `console.warn` calls in the theme toggle's two catch blocks (src/components/ThemeToggle.tsx:26, 45). They log and change no state.
- IndexPage.Page.HoverEnter: accepts any id. In the source the id always comes from a rendered card, that is from the bundled list.
- `window.matchMedia` being undefined. That case is the `prefersDark = false` input.
