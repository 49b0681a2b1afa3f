/**
 * The media library: project images flattened into media items, a
 * case-insensitive search filter, and single or toggling multiple
 * selection reported through optional callbacks.
 */
module MediaLibrary {
  import opened Base
  import opened Strings

  /** One image row of a project, as the projects endpoint returns it. */
  datatype ProjectImage = ProjectImage(id: string, originalUrl: string, thumbnailUrl: string, alt: string, order: int)

  /** A project as the library reads it; `firstTitle` is `translations?.[0]?.title`. */
  datatype MediaProject = MediaProject(id: string, images: seq<ProjectImage>, firstTitle: Option<string>, createdAt: string)

  datatype MediaItem = MediaItem(
    id: string, originalUrl: string, thumbnailUrl: string, alt: string,
    filename: string, size: int, width: int, height: int, createdAt: string)

  /** The item built for one image of a project. */
  function ToItem(p: MediaProject, img: ProjectImage): (m: MediaItem)
    ensures m.id == if img.id != "" then img.id else p.id + "-" + IntToString(img.order)
    ensures img.alt != "" ==> m.alt == img.alt
    ensures img.alt == "" && p.firstTitle.Some? && p.firstTitle.value != "" ==> m.alt == p.firstTitle.value
    ensures img.alt == "" && (p.firstTitle.None? || p.firstTitle.value == "") ==> m.alt == "Project image"
    ensures m.filename != "" && '/' !in m.filename
    ensures m.filename == LastSegment(img.originalUrl, '/') || (LastSegment(img.originalUrl, '/') == "" && m.filename == "image")
    ensures m.originalUrl == img.originalUrl && m.thumbnailUrl == img.thumbnailUrl && m.createdAt == p.createdAt
    ensures m.size == 0 && m.width == 0 && m.height == 0
  {
    var title := if p.firstTitle.Some? then p.firstTitle.value else "";
    var file := LastSegment(img.originalUrl, '/');
    MediaItem(
      if img.id != "" then img.id else p.id + "-" + IntToString(img.order),
      img.originalUrl, img.thumbnailUrl,
      if img.alt != "" then img.alt else if title != "" then title else "Project image",
      if file != "" then file else "image",
      0, 0, 0, p.createdAt)
  }

  /** The items of one project, in image order. */
  function ItemsOf(p: MediaProject): (items: seq<MediaItem>)
    ensures |items| == |p.images|
    ensures forall j :: 0 <= j < |items| ==> items[j] == ToItem(p, p.images[j])
  {
    seq(|p.images|, j requires 0 <= j < |p.images| => ToItem(p, p.images[j]))
  }

  /** Every image of every project, projects in order and images in order within each. */
  function Flatten(ps: seq<MediaProject>): (r: seq<MediaItem>)
    ensures forall x :: x in r ==> exists i :: 0 <= i < |ps| && x in ItemsOf(ps[i])
  {
    if ps == [] then []
    else
      var r := ItemsOf(ps[0]) + Flatten(ps[1..]);
      assert forall i :: 0 <= i < |ps| - 1 ==> ps[1..][i] == ps[i + 1];
      r
  }

  /** The number of images over all projects. */
  function TotalImages(ps: seq<MediaProject>): nat {
    if ps == [] then 0 else |ps[0].images| + TotalImages(ps[1..])
  }

  lemma {:induction false} FlattenCount(ps: seq<MediaProject>)
    ensures |Flatten(ps)| == TotalImages(ps)
  {
    if ps != [] {
      FlattenCount(ps[1..]);
    }
  }

  lemma {:induction false} FlattenSnoc(ps: seq<MediaProject>, p: MediaProject)
    ensures Flatten(ps + [p]) == Flatten(ps) + ItemsOf(p)
  {
    if ps != [] {
      assert (ps + [p])[1..] == ps[1..] + [p];
      FlattenSnoc(ps[1..], p);
    }
  }

  /** Every flattened item comes from some image of some project. */
  lemma {:induction false} FlattenedFromImage(ps: seq<MediaProject>, k: nat)
    requires k < |Flatten(ps)|
    ensures exists i, j :: 0 <= i < |ps| && 0 <= j < |ps[i].images| && Flatten(ps)[k] == ToItem(ps[i], ps[i].images[j])
  {
    if k < |ItemsOf(ps[0])| {
      assert Flatten(ps)[k] == ToItem(ps[0], ps[0].images[k]);
    } else {
      FlattenedFromImage(ps[1..], k - |ItemsOf(ps[0])|);
      var i, j :| 0 <= i < |ps[1..]| && 0 <= j < |ps[1..][i].images|
        && Flatten(ps[1..])[k - |ItemsOf(ps[0])|] == ToItem(ps[1..][i], ps[1..][i].images[j]);
      assert ps[1..][i] == ps[i + 1];
    }
  }

  /** `formatFileSize`: only the zero case, "Unknown size", is modelled. */
  function FormatFileSize(bytes: int): (text: Option<string>)
    ensures text.Some? <==> bytes == 0
    ensures text.Some? ==> text.value == "Unknown size"
  {
    if bytes == 0 then Some("Unknown size") else None
  }

  /** Sizes are never stored, so every fetched item is labelled "Unknown size". */
  lemma FlattenedSizeUnknown(ps: seq<MediaProject>, k: nat)
    requires k < |Flatten(ps)|
    ensures FormatFileSize(Flatten(ps)[k].size) == Some("Unknown size")
  {
    FlattenedFromImage(ps, k);
  }

  /** Whether the search term matches an item's alt text or file name, ignoring case. */
  predicate Matches(item: MediaItem, term: string) {
    Includes(ToLower(item.alt), ToLower(term)) || Includes(ToLower(item.filename), ToLower(term))
  }

  /** `filteredMedia`. */
  function Filtered(media: seq<MediaItem>, term: string): (r: seq<MediaItem>)
    ensures |r| <= |media|
    ensures forall i :: 0 <= i < |r| ==> Matches(r[i], term)
    ensures forall x :: multiset(r)[x] == if Matches(x, term) then multiset(media)[x] else 0
  {
    if media == [] then []
    else
      assert media == [media[0]] + media[1..];
      if Matches(media[0], term) then [media[0]] + Filtered(media[1..], term)
      else Filtered(media[1..], term)
  }

  /** The search keeps the library's order: filtering two parts filters each in turn. */
  lemma {:induction false} FilteredAppend(a: seq<MediaItem>, b: seq<MediaItem>, term: string)
    ensures Filtered(a + b, term) == Filtered(a, term) + Filtered(b, term)
  {
    if a == [] {
      assert a + b == b;
    } else {
      assert (a + b)[1..] == a[1..] + b;
      FilteredAppend(a[1..], b, term);
    }
  }

  lemma {:induction false} FilteredMembers(media: seq<MediaItem>, term: string, x: MediaItem)
    ensures x in Filtered(media, term) <==> x in media && Matches(x, term)
  {
    var r := Filtered(media, term);
    assert x in r <==> multiset(r)[x] > 0;
    assert x in media <==> multiset(media)[x] > 0;
  }

  /** An empty search keeps every item, in order. */
  lemma {:induction false} FilteredEmptyTerm(media: seq<MediaItem>)
    ensures Filtered(media, "") == media
  {
    if media != [] {
      IncludesEmpty(ToLower(media[0].alt));
      FilteredEmptyTerm(media[1..]);
    }
  }

  /** `selectedMedia.some(m => m.id === item.id)`. */
  predicate IsSelected(sel: seq<MediaItem>, item: MediaItem) {
    exists i :: 0 <= i < |sel| && sel[i].id == item.id
  }

  predicate DistinctIds(sel: seq<MediaItem>) {
    forall i, j :: 0 <= i < j < |sel| ==> sel[i].id != sel[j].id
  }

  /** `selectedMedia.filter(m => m.id !== id)`. */
  function Without(sel: seq<MediaItem>, id: string): (r: seq<MediaItem>)
    ensures |r| <= |sel|
    ensures forall i :: 0 <= i < |r| ==> r[i].id != id && r[i] in sel
  {
    if sel == [] then []
    else if sel[0].id == id then Without(sel[1..], id)
    else [sel[0]] + Without(sel[1..], id)
  }

  /** Deselecting drops every item with that id and keeps every other item as often as it was there. */
  lemma {:induction false} WithoutCounts(sel: seq<MediaItem>, id: string, x: MediaItem)
    ensures multiset(Without(sel, id))[x] == if x.id == id then 0 else multiset(sel)[x]
  {
    if sel != [] {
      assert sel == [sel[0]] + sel[1..];
      WithoutCounts(sel[1..], id, x);
    }
  }

  /** Deselecting keeps the order of the selection: filtering two parts filters each in turn. */
  lemma {:induction false} WithoutAppend(a: seq<MediaItem>, b: seq<MediaItem>, id: string)
    ensures Without(a + b, id) == Without(a, id) + Without(b, id)
  {
    if a == [] {
      assert a + b == b;
    } else {
      assert (a + b)[1..] == a[1..] + b;
      WithoutAppend(a[1..], b, id);
    }
  }

  /** The new selection after clicking `item` in multiple mode. */
  function Toggle(sel: seq<MediaItem>, item: MediaItem): (r: seq<MediaItem>)
    ensures IsSelected(sel, item) ==> r == Without(sel, item.id)
    ensures !IsSelected(sel, item) ==> r == sel + [item]
  {
    if IsSelected(sel, item) then Without(sel, item.id) else sel + [item]
  }

  lemma {:induction false} WithoutAbsent(sel: seq<MediaItem>, id: string)
    requires forall i :: 0 <= i < |sel| ==> sel[i].id != id
    ensures Without(sel, id) == sel
  {
    if sel != [] {
      WithoutAbsent(sel[1..], id);
    }
  }

  lemma {:induction false} WithoutSnoc(sel: seq<MediaItem>, item: MediaItem)
    ensures Without(sel + [item], item.id) == Without(sel, item.id)
  {
    if sel != [] {
      assert (sel + [item])[1..] == sel[1..] + [item];
      WithoutSnoc(sel[1..], item);
    } else {
      assert ([] + [item])[1..] == [];
    }
  }

  lemma {:induction false} WithoutKeepsDistinct(sel: seq<MediaItem>, id: string)
    requires DistinctIds(sel)
    ensures DistinctIds(Without(sel, id))
  {
    if sel != [] {
      WithoutKeepsDistinct(sel[1..], id);
      var rest := Without(sel[1..], id);
      forall k | 0 <= k < |rest|
        ensures rest[k].id != sel[0].id
      {
        var j :| 0 <= j < |sel[1..]| && sel[1..][j] == rest[k];
        assert sel[j + 1] == rest[k];
      }
    }
  }

  /** Toggling never produces two selected items with the same id. */
  lemma ToggleKeepsDistinct(sel: seq<MediaItem>, item: MediaItem)
    requires DistinctIds(sel)
    ensures DistinctIds(Toggle(sel, item))
  {
    if IsSelected(sel, item) {
      WithoutKeepsDistinct(sel, item.id);
    }
  }

  /** After a toggle the item is selected exactly when it was not before. */
  lemma ToggleFlips(sel: seq<MediaItem>, item: MediaItem)
    ensures IsSelected(Toggle(sel, item), item) <==> !IsSelected(sel, item)
  {
    if !IsSelected(sel, item) {
      assert Toggle(sel, item)[|sel|] == item;
    }
  }

  /** Selecting an unselected item and then deselecting it restores the selection. */
  lemma ToggleTwiceRestores(sel: seq<MediaItem>, item: MediaItem)
    requires !IsSelected(sel, item)
    ensures Toggle(Toggle(sel, item), item) == sel
  {
    ToggleFlips(sel, item);
    WithoutSnoc(sel, item);
    WithoutAbsent(sel, item.id);
  }

  datatype LibraryMode = Select | Manage

  /** The props a parent passes; a `has...` flag says whether that callback was given. */
  datatype LibraryProps = LibraryProps(
    allowMultiple: bool, mode: LibraryMode,
    hasOnSelect: bool, hasOnSelectMultiple: bool, hasOnClose: bool)

  /** A callback invocation the library makes. */
  datatype Event = SelectedOne(item: MediaItem) | SelectedMultiple(items: seq<MediaItem>) | Closed

  datatype SelectStep = SelectStep(selected: seq<MediaItem>, events: seq<Event>)

  /** `handleSelect(item)`: the new selection and the callbacks it calls, in order. */
  function HandleSelectStep(props: LibraryProps, sel: seq<MediaItem>, item: MediaItem): (r: SelectStep)
    ensures props.allowMultiple ==> r.selected == Toggle(sel, item)
    ensures props.allowMultiple ==>
      r.events == (if props.hasOnSelectMultiple then [SelectedMultiple(Toggle(sel, item))] else [])
    ensures !props.allowMultiple ==> r.selected == sel
    ensures !props.allowMultiple ==>
      r.events == (if props.hasOnSelect then [SelectedOne(item)] else [])
        + (if props.mode == Select && props.hasOnClose then [Closed] else [])
  {
    if props.allowMultiple then
      var next := Toggle(sel, item);
      SelectStep(next, if props.hasOnSelectMultiple then [SelectedMultiple(next)] else [])
    else
      SelectStep(sel, (if props.hasOnSelect then [SelectedOne(item)] else [])
                      + (if props.mode == Select && props.hasOnClose then [Closed] else []))
  }

  /** What the response of the projects endpoint gave: nothing usable, or a body. */
  datatype FetchResult = Failed | Fetched(projects: Option<seq<MediaProject>>)

  class Library {
    const props: LibraryProps
    var media: seq<MediaItem>
    var loading: bool
    var searchTerm: string
    var selectedMedia: seq<MediaItem>

    constructor (props: LibraryProps, selectedItems: seq<MediaItem>)
      ensures this.props == props && media == [] && loading && searchTerm == "" && selectedMedia == selectedItems
    {
      this.props := props;
      media := [];
      loading := true;
      searchTerm := "";
      selectedMedia := selectedItems;
    }

    /** `fetchMedia`: the nested `forEach` that pushes one item per project image. */
    method FetchMedia(response: FetchResult)
      modifies this
      ensures response.Fetched? ==> media == Flatten(response.projects.GetOr([]))
      ensures response.Failed? ==> media == old(media)
      ensures !loading && selectedMedia == old(selectedMedia) && searchTerm == old(searchTerm)
    {
      loading := true;
      if response.Fetched? {
        var ps := response.projects.GetOr([]);
        var all: seq<MediaItem> := [];
        var i := 0;
        while i < |ps|
          invariant 0 <= i <= |ps|
          invariant all == Flatten(ps[..i])
          invariant selectedMedia == old(selectedMedia) && searchTerm == old(searchTerm)
        {
          var p := ps[i];
          var j := 0;
          while j < |p.images|
            invariant 0 <= j <= |p.images|
            invariant all == Flatten(ps[..i]) + ItemsOf(p)[..j]
            invariant selectedMedia == old(selectedMedia) && searchTerm == old(searchTerm)
          {
            all := all + [ToItem(p, p.images[j])];
            assert ItemsOf(p)[..j + 1] == ItemsOf(p)[..j] + [ToItem(p, p.images[j])];
            j := j + 1;
          }
          assert ItemsOf(p)[..j] == ItemsOf(p);
          assert ps[..i + 1] == ps[..i] + [p];
          FlattenSnoc(ps[..i], p);
          i := i + 1;
        }
        assert ps[..i] == ps;
        media := all;
      }
      loading := false;
    }

    /** The items shown for the current search term. */
    function FilteredMedia(): (r: seq<MediaItem>)
      reads this
      ensures forall x :: x in r <==> x in media && Matches(x, searchTerm)
      ensures forall x :: multiset(r)[x] == if Matches(x, searchTerm) then multiset(media)[x] else 0
      ensures r == Filtered(media, searchTerm)
    {
      var r := Filtered(media, searchTerm);
      assert forall x :: x in r <==> x in media && Matches(x, searchTerm) by {
        forall x ensures x in r <==> x in media && Matches(x, searchTerm) {
          FilteredMembers(media, searchTerm, x);
        }
      }
      r
    }

    method SetSearchTerm(term: string)
      modifies this
      ensures searchTerm == term && media == old(media) && selectedMedia == old(selectedMedia) && loading == old(loading)
    {
      searchTerm := term;
    }

    /** Clicking an item. */
    method HandleSelect(item: MediaItem) returns (events: seq<Event>)
      modifies this
      ensures SelectStep(selectedMedia, events) == HandleSelectStep(props, old(selectedMedia), item)
      ensures media == old(media) && searchTerm == old(searchTerm) && loading == old(loading)
    {
      var step := HandleSelectStep(props, selectedMedia, item);
      selectedMedia := step.selected;
      events := step.events;
    }

    /** `isSelected(item)`. */
    predicate IsItemSelected(item: MediaItem)
      reads this
    {
      IsSelected(selectedMedia, item)
    }

    /** Whether the footer's "Select N items" button is offered and enabled. */
    predicate CanConfirm()
      reads this
    {
      props.mode == Select && props.allowMultiple && selectedMedia != []
    }

    /** The footer's "Select N items" button: report the selection, then close. */
    method Confirm() returns (events: seq<Event>)
      ensures !CanConfirm() ==> events == []
      ensures CanConfirm() ==>
        events == (if props.hasOnSelectMultiple then [SelectedMultiple(selectedMedia)] else [])
          + (if props.hasOnClose then [Closed] else [])
    {
      if CanConfirm() {
        events := (if props.hasOnSelectMultiple then [SelectedMultiple(selectedMedia)] else [])
          + (if props.hasOnClose then [Closed] else []);
      } else {
        events := [];
      }
    }
  }
}
