/**
 * The list pages of the admin area: app/admin/projects/page.tsx and
 * app/admin/blogs/page.tsx. Each keeps its rows in state, shows the rows
 * whose texts mention the search term, and flips one flag of one row.
 */
module AdminLists {
  import opened Text
  import Listing

  /** `ys` is `xs` with some entries dropped and the rest in order. */
  predicate IsSubsequence<T(==)>(ys: seq<T>, xs: seq<T>)
    decreases |xs|
  {
    if |ys| == 0 then true
    else if |xs| == 0 then false
    else (ys[0] == xs[0] && IsSubsequence(ys[1..], xs[1..])) || IsSubsequence(ys, xs[1..])
  }

  /** `xs.filter(keep)`. */
  function Filter<T(==,!new)>(xs: seq<T>, keep: T -> bool): (r: seq<T>)
    ensures IsSubsequence(r, xs)
    ensures forall x :: x in r <==> x in xs && keep(x)
    ensures (forall x :: x in xs ==> keep(x)) ==> r == xs
  {
    if |xs| == 0 then []
    else
      var rest := Filter(xs[1..], keep);
      assert xs == [xs[0]] + xs[1..];
      if keep(xs[0]) then
        var r := [xs[0]] + rest;
        assert r[1..] == rest;
        r
      else rest
  }

  /** The lower-cased search term occurs in the lower-cased text. */
  lemma EmptyTermMentioned(text: string)
    ensures Listing.Mentions(text, "")
  {
    ContainsEmpty(ToLower(text));
  }

  // ---------------------------------------------------------------- projects

  datatype Project = Project(id: string, title: string, description: string, techStack: seq<string>,
                             githubUrl: string, demoUrl: string, visible: bool, createdAt: string)

  /** The `filteredProjects` test: title or description. */
  predicate ProjectMatches(term: string, p: Project) {
    Listing.Mentions(p.title, term) || Listing.Mentions(p.description, term)
  }

  function FilteredProjects(projects: seq<Project>, term: string): (shown: seq<Project>)
    ensures IsSubsequence(shown, projects)
    ensures forall p :: p in shown <==> p in projects && ProjectMatches(term, p)
    ensures term == "" ==> shown == projects
  {
    EmptyTermKeepsProjects(projects);
    Filter(projects, p => ProjectMatches(term, p))
  }

  lemma EmptyTermKeepsProjects(projects: seq<Project>)
    ensures forall p :: p in projects ==> ProjectMatches("", p)
  {
    forall p | p in projects
      ensures ProjectMatches("", p)
    {
      EmptyTermMentioned(p.title);
    }
  }

  /** `projects.map(p => p.id === id ? { ...p, visible: !p.visible } : p)`. */
  function ToggledVisibility(projects: seq<Project>, id: string): (r: seq<Project>)
    ensures |r| == |projects|
    ensures forall k :: 0 <= k < |r| ==>
      r[k] == if projects[k].id == id then projects[k].(visible := !projects[k].visible) else projects[k]
  {
    seq(|projects|, k requires 0 <= k < |projects| =>
      if projects[k].id == id then projects[k].(visible := !projects[k].visible) else projects[k])
  }

  /** Toggling twice with the same id restores the list. */
  lemma ToggleVisibilityTwice(projects: seq<Project>, id: string)
    ensures ToggledVisibility(ToggledVisibility(projects, id), id) == projects
  {
    var r := ToggledVisibility(ToggledVisibility(projects, id), id);
    assert forall k :: 0 <= k < |r| ==> r[k] == projects[k];
  }

  /** Only the `visible` flag of rows with that id moves; an unknown id changes nothing. */
  lemma ToggleVisibilityFrame(projects: seq<Project>, id: string)
    ensures forall k :: 0 <= k < |projects| ==>
      ToggledVisibility(projects, id)[k].(visible := projects[k].visible) == projects[k]
    ensures (forall k :: 0 <= k < |projects| ==> projects[k].id != id) ==> ToggledVisibility(projects, id) == projects
  {
  }

  class ProjectsManager {
    var projects: seq<Project>
    var searchTerm: string

    constructor (initial: seq<Project>)
      ensures projects == initial && searchTerm == ""
    {
      projects, searchTerm := initial, "";
    }

    /** What the page lists. */
    function Shown(): seq<Project>
      reads this
    {
      FilteredProjects(projects, searchTerm)
    }

    method SetSearchTerm(term: string)
      modifies this
      ensures searchTerm == term && projects == old(projects)
    {
      searchTerm := term;
    }

    method ToggleVisibility(id: string)
      modifies this
      ensures projects == ToggledVisibility(old(projects), id)
      ensures searchTerm == old(searchTerm)
    {
      projects := ToggledVisibility(projects, id);
    }
  }

  // ---------------------------------------------------------------- blogs

  datatype BlogRow = BlogRow(id: string, title: string, slug: string, excerpt: string, tags: seq<string>,
                             published: bool, createdAt: string, updatedAt: string)

  /** The `filteredBlogs` test: title, excerpt or any tag. */
  predicate BlogMatches(term: string, b: BlogRow) {
    Listing.Mentions(b.title, term) || Listing.Mentions(b.excerpt, term) ||
    exists k :: 0 <= k < |b.tags| && Listing.Mentions(b.tags[k], term)
  }

  function FilteredBlogs(blogs: seq<BlogRow>, term: string): (shown: seq<BlogRow>)
    ensures IsSubsequence(shown, blogs)
    ensures forall b :: b in shown <==> b in blogs && BlogMatches(term, b)
    ensures term == "" ==> shown == blogs
  {
    EmptyTermKeepsBlogs(blogs);
    Filter(blogs, b => BlogMatches(term, b))
  }

  lemma EmptyTermKeepsBlogs(blogs: seq<BlogRow>)
    ensures forall b :: b in blogs ==> BlogMatches("", b)
  {
    forall b | b in blogs
      ensures BlogMatches("", b)
    {
      EmptyTermMentioned(b.title);
    }
  }

  /** A tag alone is enough to keep a post, whatever its title and excerpt say. */
  lemma TagAloneKeeps(blogs: seq<BlogRow>, b: BlogRow, k: nat, term: string)
    requires b in blogs && k < |b.tags| && Listing.Mentions(b.tags[k], term)
    ensures b in FilteredBlogs(blogs, term)
  {
  }

  /** `blogs.map(b => b.id === id ? { ...b, published: !b.published } : b)`. */
  function ToggledPublished(blogs: seq<BlogRow>, id: string): (r: seq<BlogRow>)
    ensures |r| == |blogs|
    ensures forall k :: 0 <= k < |r| ==>
      r[k] == if blogs[k].id == id then blogs[k].(published := !blogs[k].published) else blogs[k]
  {
    seq(|blogs|, k requires 0 <= k < |blogs| =>
      if blogs[k].id == id then blogs[k].(published := !blogs[k].published) else blogs[k])
  }

  lemma TogglePublishedTwice(blogs: seq<BlogRow>, id: string)
    ensures ToggledPublished(ToggledPublished(blogs, id), id) == blogs
  {
    var r := ToggledPublished(ToggledPublished(blogs, id), id);
    assert forall k :: 0 <= k < |r| ==> r[k] == blogs[k];
  }

  /** Only `published` of rows with that id moves; an unknown id changes nothing. */
  lemma TogglePublishedFrame(blogs: seq<BlogRow>, id: string)
    ensures forall k :: 0 <= k < |blogs| ==>
      ToggledPublished(blogs, id)[k].(published := blogs[k].published) == blogs[k]
    ensures (forall k :: 0 <= k < |blogs| ==> blogs[k].id != id) ==> ToggledPublished(blogs, id) == blogs
  {
  }

  class BlogManager {
    var blogs: seq<BlogRow>
    var searchTerm: string

    constructor (initial: seq<BlogRow>)
      ensures blogs == initial && searchTerm == ""
    {
      blogs, searchTerm := initial, "";
    }

    function Shown(): seq<BlogRow>
      reads this
    {
      FilteredBlogs(blogs, searchTerm)
    }

    method SetSearchTerm(term: string)
      modifies this
      ensures searchTerm == term && blogs == old(blogs)
    {
      searchTerm := term;
    }

    method TogglePublished(id: string)
      modifies this
      ensures blogs == ToggledPublished(old(blogs), id)
      ensures searchTerm == old(searchTerm)
    {
      blogs := ToggledPublished(blogs, id);
    }
  }
}
