/** The maintenance script that gives every project without images one placeholder image. */
module AddProjectImages {
  import opened Base

  datatype Placeholder = Placeholder(originalUrl: string, thumbnailUrl: string, alt: string)

  /** The four placeholders; the first and the last share their photo. */
  const Placeholders := [
    Placeholder("https://images.unsplash.com/photo-1586023492125-27b2c045efd7?w=800&h=600&fit=crop",
                "https://images.unsplash.com/photo-1586023492125-27b2c045efd7?w=400&h=400&fit=crop",
                "Handcrafted wooden dining table"),
    Placeholder("https://images.unsplash.com/photo-1556909114-f6e7ad7d3136?w=800&h=600&fit=crop",
                "https://images.unsplash.com/photo-1556909114-f6e7ad7d3136?w=400&h=400&fit=crop",
                "Modern kitchen cabinets"),
    Placeholder("https://images.unsplash.com/photo-1507003211169-0a1dd7228f2d?w=800&h=600&fit=crop",
                "https://images.unsplash.com/photo-1507003211169-0a1dd7228f2d?w=400&h=400&fit=crop",
                "Custom wooden bookshelf"),
    Placeholder("https://images.unsplash.com/photo-1586023492125-27b2c045efd7?w=800&h=600&fit=crop",
                "https://images.unsplash.com/photo-1586023492125-27b2c045efd7?w=400&h=400&fit=crop",
                "Live edge coffee table")
  ]

  datatype Project = Project(id: string, imageCount: nat)

  datatype ImageRow = ImageRow(projectId: string, originalUrl: string, thumbnailUrl: string, alt: string, order: int)

  /** The image the project at position `i` of the list would get. */
  function ImageFor(p: Project, i: nat): (r: ImageRow)
    ensures r.projectId == p.id && r.order == 0
    ensures r.originalUrl == Placeholders[i % 4].originalUrl && r.alt == Placeholders[i % 4].alt
    ensures r.thumbnailUrl == Placeholders[i % 4].thumbnailUrl
  {
    var img := Placeholders[i % |Placeholders|];
    ImageRow(p.id, img.originalUrl, img.thumbnailUrl, img.alt, 0)
  }

  /** The rows written for the first `n` projects. */
  function Planned(ps: seq<Project>, n: nat): (r: seq<ImageRow>)
    requires n <= |ps|
    ensures |r| <= n
    ensures forall k :: 0 <= k < |r| ==> r[k].order == 0
  {
    if n == 0 then []
    else Planned(ps, n - 1) + (if ps[n - 1].imageCount > 0 then [] else [ImageFor(ps[n - 1], n - 1)])
  }

  /**
   * Every planned row belongs to a project before `n` that had no images
   * and is that project's placeholder, and each such project has its row.
   */
  lemma {:induction false} PlannedRows(ps: seq<Project>, n: nat)
    requires n <= |ps|
    ensures forall r :: r in Planned(ps, n) ==>
      exists i :: 0 <= i < n && ps[i].imageCount == 0 && r == ImageFor(ps[i], i)
    ensures forall i :: 0 <= i < n && ps[i].imageCount == 0 ==> ImageFor(ps[i], i) in Planned(ps, n)
  {
    if n > 0 {
      PlannedRows(ps, n - 1);
    }
  }

  /** With distinct ids, a project that already had images gets none. */
  lemma SkippedGetNothing(ps: seq<Project>, n: nat, k: nat)
    requires n <= |ps| && k < |ps| && ps[k].imageCount > 0
    requires forall i, j :: 0 <= i < j < |ps| ==> ps[i].id != ps[j].id
    ensures forall r :: r in Planned(ps, n) ==> r.projectId != ps[k].id
  {
    PlannedRows(ps, n);
  }

  /** Each project without images gets exactly one image. */
  lemma {:induction false} OneImageEach(ps: seq<Project>, n: nat, k: nat)
    requires n <= |ps| && k < n && ps[k].imageCount == 0
    requires forall i, j :: 0 <= i < j < |ps| ==> ps[i].id != ps[j].id
    ensures |set r | r in Planned(ps, n) && r.projectId == ps[k].id| == 1
  {
    PlannedRows(ps, n);
    var mine := set r | r in Planned(ps, n) && r.projectId == ps[k].id;
    assert ImageFor(ps[k], k) in mine;
    assert mine == {ImageFor(ps[k], k)};
  }

  /** The image table and the database connection. */
  class Database {
    var images: seq<ImageRow>
    var connected: bool

    constructor (rows: seq<ImageRow>)
      ensures images == rows && connected
    {
      images := rows;
      connected := true;
    }

    /**
     * `addProjectImages`: `projects` is `None` when the query fails, and
     * `failAt` the position of a project whose insert fails. A failure ends
     * the loop; the connection is closed in every case.
     */
    method AddProjectImages(projects: Option<seq<Project>>, failAt: Option<nat>)
      modifies this
      ensures !connected
      ensures projects.None? ==> images == old(images)
      ensures projects.Some? ==>
        var ps := projects.value;
        var stop := if failAt.Some? && failAt.value < |ps| && ps[failAt.value].imageCount == 0 then failAt.value else |ps|;
        images == old(images) + Planned(ps, stop)
    {
      if projects.None? {
        connected := false;
        return;
      }
      var ps := projects.value;
      var i := 0;
      while i < |ps|
        invariant 0 <= i <= |ps|
        invariant images == old(images) + Planned(ps, i)
        invariant failAt.Some? && failAt.value < i ==> ps[failAt.value].imageCount > 0
      {
        if ps[i].imageCount > 0 {
          i := i + 1;
          continue;
        }
        if failAt == Some(i) {
          break;
        }
        images := images + [ImageFor(ps[i], i)];
        i := i + 1;
      }
      connected := false;
    }
  }
}
