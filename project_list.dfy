/** The admin project list: the query it sends, its loading and error state, and the title it shows. */
module ProjectList {
  import opened Base

  /** `URLSearchParams` as the ordered list of its appended pairs. */
  type Params = seq<(string, string)>

  /** What `fetchProjects` appends, in order. */
  function ExpectedParams(search: string, published: string, featured: string): Params {
    (if search != "" then [("search", search)] else [])
    + (if published != "all" then [("published", published)] else [])
    + (if featured != "all" then [("featured", featured)] else [])
    + [("limit", "50")]
  }

  /** `params` built by successive `append` calls. */
  method BuildParams(search: string, published: string, featured: string) returns (params: Params)
    ensures params == ExpectedParams(search, published, featured)
  {
    params := [];
    if search != "" {
      params := params + [("search", search)];
    }
    if published != "all" {
      params := params + [("published", published)];
    }
    if featured != "all" {
      params := params + [("featured", featured)];
    }
    params := params + [("limit", "50")];
  }

  /** Which parameters are sent, and that the limit is always there, last. */
  lemma ExpectedParamsShape(search: string, published: string, featured: string)
    ensures var p := ExpectedParams(search, published, featured);
      1 <= |p| <= 4 && p[|p| - 1] == ("limit", "50")
    ensures ("search", search) in ExpectedParams(search, published, featured) <==> search != ""
    ensures ("published", published) in ExpectedParams(search, published, featured) <==> published != "all"
    ensures ("featured", featured) in ExpectedParams(search, published, featured) <==> featured != "all"
  {
    var p := ExpectedParams(search, published, featured);
    assert forall i :: 0 <= i < |p| ==> p[i].0 in {"search", "published", "featured", "limit"};
    var a := if search != "" then [("search", search)] else [];
    var b := if published != "all" then [("published", published)] else [];
    var c := if featured != "all" then [("featured", featured)] else [];
    assert p == a + b + c + [("limit", "50")];
    assert forall x :: x in p <==> x in a || x in b || x in c || x == ("limit", "50");
    assert "published" != "search" && "featured" != "search" && "limit" != "search";
    assert "featured" != "published" && "limit" != "published" && "limit" != "featured";
  }

  /** `getProjectTitle`: the first translation's title, or "Untitled Project". */
  function ProjectTitle(titles: seq<string>): (r: string)
    ensures r != ""
    ensures titles != [] && titles[0] != "" ==> r == titles[0]
    ensures titles == [] || titles[0] == "" ==> r == "Untitled Project"
  {
    if titles != [] && titles[0] != "" then titles[0] else "Untitled Project"
  }

  /** A project row as the list uses it: its id and its translations' titles. */
  datatype ListedProject = ListedProject(id: string, titles: seq<string>)

  /** How the request to `/api/projects` ended. */
  datatype FetchOutcome =
    | Loaded(projects: seq<ListedProject>)
    | NotOk            // the response was not OK
    | Thrown(message: string)

  class List {
    var projects: seq<ListedProject>
    var loading: bool
    var error: Option<string>
    var search: string
    var publishedFilter: string
    var featuredFilter: string

    constructor ()
      ensures projects == [] && loading && error.None?
      ensures search == "" && publishedFilter == "all" && featuredFilter == "all"
    {
      projects := [];
      loading := true;
      error := None;
      search := "";
      publishedFilter := "all";
      featuredFilter := "all";
    }

    /**
     * `fetchProjects`: `params` is the query sent. A failure sets the
     * message and keeps the old rows; a success does not clear an earlier
     * message. Loading is off afterwards either way.
     */
    method FetchProjects(outcome: FetchOutcome) returns (params: Params)
      modifies this
      ensures params == ExpectedParams(search, publishedFilter, featuredFilter)
      ensures !loading
      ensures outcome.Loaded? ==> projects == outcome.projects && error == old(error)
      ensures outcome.NotOk? ==> projects == old(projects) && error == Some("Failed to fetch projects")
      ensures outcome.Thrown? ==> projects == old(projects) && error == Some(outcome.message)
      ensures search == old(search) && publishedFilter == old(publishedFilter) && featuredFilter == old(featuredFilter)
    {
      loading := true;
      params := BuildParams(search, publishedFilter, featuredFilter);
      match outcome {
        case Loaded(ps) => projects := ps;
        case NotOk => error := Some("Failed to fetch projects");
        case Thrown(m) => error := Some(m);
      }
      loading := false;
    }

    /** Typing in the search box: the new term is kept and, through the effect on it, the list is fetched again. */
    method ChangeSearch(value: string, outcome: FetchOutcome) returns (params: Params)
      modifies this
      ensures search == value && publishedFilter == old(publishedFilter) && featuredFilter == old(featuredFilter)
      ensures params == ExpectedParams(value, old(publishedFilter), old(featuredFilter))
      ensures !loading
      ensures outcome.Loaded? ==> projects == outcome.projects && error == old(error)
      ensures !outcome.Loaded? ==> projects == old(projects) && error.Some?
    {
      search := value;
      params := FetchProjects(outcome);
    }

    /** Choosing a published filter; the list is fetched again with it. */
    method ChangePublishedFilter(value: string, outcome: FetchOutcome) returns (params: Params)
      modifies this
      ensures publishedFilter == value && search == old(search) && featuredFilter == old(featuredFilter)
      ensures params == ExpectedParams(old(search), value, old(featuredFilter))
      ensures !loading
      ensures outcome.Loaded? ==> projects == outcome.projects && error == old(error)
      ensures !outcome.Loaded? ==> projects == old(projects) && error.Some?
    {
      publishedFilter := value;
      params := FetchProjects(outcome);
    }

    /** Choosing a featured filter; the list is fetched again with it. */
    method ChangeFeaturedFilter(value: string, outcome: FetchOutcome) returns (params: Params)
      modifies this
      ensures featuredFilter == value && search == old(search) && publishedFilter == old(publishedFilter)
      ensures params == ExpectedParams(old(search), old(publishedFilter), value)
      ensures !loading
      ensures outcome.Loaded? ==> projects == outcome.projects && error == old(error)
      ensures !outcome.Loaded? ==> projects == old(projects) && error.Some?
    {
      featuredFilter := value;
      params := FetchProjects(outcome);
    }
  }
}
