/**
 * The bundled list of portfolio projects and the lookup by URL slug
 * (src/data/projects.ts). The list is a build-time constant; the lookup
 * is a first-match search over it.
 */
module Projects {
  import opened Wrappers

  /** An image is the URL of a bundled asset; the model treats it as an opaque string. */
  type Image = string

  datatype Project = Project(
    id: int,
    index: string,
    title: string,
    slug: string,
    year: string,
    category: string,
    description: string,
    challenge: string,
    solution: string,
    images: seq<Image>,
    techStack: seq<string>,
    liveUrl: Option<string>,
    githubUrl: Option<string>)

  const ExpenseTracker1: Image := "@/assets/projects/expense-tracker-1.png"
  const ExpenseTracker2: Image := "@/assets/projects/expense-tracker-2.png"

  /** The three free-text fields of project 1; nothing in the model inspects them. */
  const ExpenseTrackerDescription: string := "A robust full-stack finance management tool built with the MERN stack featuring secure JWT authentication, comprehensive CRUD operations, and dynamic data visualization in a modern dark-mode interface."
  const ExpenseTrackerChallenge: string := "Creating a seamless expense management experience that prioritizes both security and user experience, with real-time analytics and responsive design that works across all devices."
  const ExpenseTrackerSolution: string := "Built a full-stack MERN application with JWT authentication for secure user sessions, implemented comprehensive CRUD operations for expense management, designed a teal-themed dark mode UI with custom animations, and integrated real-time spending analytics with category management for comprehensive financial tracking."

  /**
   * What the pages rely on about the list: every project has at least one
   * image (the gallery computes indices modulo the image count) and a
   * non-empty slug (the route treats an empty slug as absent), and ids and
   * slugs are pairwise distinct.
   */
  ghost predicate WellFormed(ps: seq<Project>) {
    (forall i :: 0 <= i < |ps| ==> |ps[i].images| > 0 && ps[i].slug != "") &&
    (forall i, j :: 0 <= i < j < |ps| ==> ps[i].id != ps[j].id && ps[i].slug != ps[j].slug)
  }

  /** The `projects` constant. */
  function AllProjects(): (ps: seq<Project>)
    ensures |ps| == 1
    ensures WellFormed(ps)
  {
    [ Project(
        1, "01", "Expense Tracker Pro", "expense-tracker-pro", "2024",
        "Full Stack Web Application",
        ExpenseTrackerDescription, ExpenseTrackerChallenge, ExpenseTrackerSolution,
        [ExpenseTracker1, ExpenseTracker2, ExpenseTracker1, ExpenseTracker2],
        ["MongoDB", "Express.js", "React", "Node.js", "JWT", "Vite", "Tailwind CSS"],
        None,
        Some("https://github.com/naodhunde")) ]
  }

  /** No project of `ps` carries slug `slug`. */
  ghost predicate NoSlug(ps: seq<Project>, slug: string) {
    forall i :: 0 <= i < |ps| ==> ps[i].slug != slug
  }

  /** `Array.prototype.find`: the first element in order that satisfies `p`, if any. */
  function FindFirst<T>(xs: seq<T>, p: T -> bool): (r: Option<T>)
    ensures r.None? <==> forall i :: 0 <= i < |xs| ==> !p(xs[i])
    ensures r.Some? ==> p(r.value)
    ensures r.Some? ==> exists i :: 0 <= i < |xs| && xs[i] == r.value && forall j :: 0 <= j < i ==> !p(xs[j])
    decreases |xs|
  {
    if |xs| == 0 then None
    else if p(xs[0]) then Some(xs[0])
    else
      var r := FindFirst(xs[1..], p);
      assert r.Some? ==> exists i :: 1 <= i < |xs| && xs[i] == r.value && forall j :: 0 <= j < i ==> !p(xs[j]) by {
        if r.Some? {
          var i :| 0 <= i < |xs[1..]| && xs[1..][i] == r.value && forall j :: 0 <= j < i ==> !p(xs[1..][j]);
          assert xs[i + 1] == xs[1..][i];
          forall j | 0 <= j < i + 1 ensures !p(xs[j]) {
            if j > 0 { assert xs[j] == xs[1..][j - 1]; }
          }
        }
      }
      r
  }

  /** `projects.find((project) => project.slug === slug)`. */
  function FindBySlug(ps: seq<Project>, slug: string): (r: Option<Project>)
    ensures r.None? <==> NoSlug(ps, slug)
    ensures r.Some? ==> r.value.slug == slug
    ensures r.Some? ==> exists i :: 0 <= i < |ps| && ps[i] == r.value && NoSlug(ps[..i], slug)
  {
    var r := FindFirst(ps, (q: Project) => q.slug == slug);
    assert r.Some? ==> exists i :: 0 <= i < |ps| && ps[i] == r.value && NoSlug(ps[..i], slug) by {
      if r.Some? {
        var i :| 0 <= i < |ps| && ps[i] == r.value && forall j :: 0 <= j < i ==> ps[j].slug != slug;
        assert NoSlug(ps[..i], slug);
      }
    }
    r
  }

  /** `getProjectBySlug`: the lookup over the bundled list. */
  function GetProjectBySlug(slug: string): (r: Option<Project>)
    ensures r.None? <==> NoSlug(AllProjects(), slug)
    ensures r.Some? ==> r.value.slug == slug && r.value in AllProjects() && |r.value.images| > 0
  {
    FindBySlug(AllProjects(), slug)
  }

  /** In a well-formed list, looking up a project's own slug yields that project. */
  lemma FindOwnSlug(ps: seq<Project>, k: int)
    requires WellFormed(ps)
    requires 0 <= k < |ps|
    ensures FindBySlug(ps, ps[k].slug) == Some(ps[k])
  {
  }

  /** The route `/work/expense-tracker-pro` resolves to project 1, which has four images. */
  lemma ExpenseTrackerLookup()
    ensures GetProjectBySlug("expense-tracker-pro").Some?
    ensures GetProjectBySlug("expense-tracker-pro").value.id == 1
    ensures |GetProjectBySlug("expense-tracker-pro").value.images| == 4
  {
  }
}
