/**
 * The project detail modal: the translation it shows, the image carousel
 * with its cyclic index, and the description's plain text.
 */
module ProjectModal {
  import opened Base
  import opened RichText
  import opened GalleryData

  /** `(prev + 1) % images.length`; with no images JavaScript gives `NaN`, here `None`. */
  function NextIndex(i: nat, n: nat): (r: Option<nat>)
    ensures r.Some? <==> n > 0
    ensures r.Some? ==> r.value < n
    ensures r.Some? && i + 1 < n ==> r.value == i + 1
    ensures r.Some? && i + 1 == n ==> r.value == 0
  {
    if n == 0 then None else Some((i + 1) % n)
  }

  /** `(prev - 1 + images.length) % images.length`. */
  function PreviousIndex(i: nat, n: nat): (r: Option<nat>)
    ensures r.Some? <==> n > 0
    ensures r.Some? ==> r.value < n
    ensures r.Some? && 0 < i <= n ==> r.value == i - 1
    ensures r.Some? && i == 0 ==> r.value == n - 1
  {
    if n == 0 then None else Some((i + n - 1) % n)
  }

  /** Stepping forward and then back, or back and then forward, returns to the same image. */
  lemma NextPreviousInverse(i: nat, n: nat)
    requires i < n
    ensures PreviousIndex(NextIndex(i, n).value, n) == Some(i)
    ensures NextIndex(PreviousIndex(i, n).value, n) == Some(i)
  {
  }

  /** The content of the modal while it is open. */
  datatype View = View(
    translation: GalleryTranslation,
    current: Option<GalleryPicture>,
    navigation: bool,
    counter: Option<(nat, nat)>,
    thumbnails: bool,
    description: Option<string>)

  /**
   * The modal for `project` in language `code` at image `index`
   * (`None` standing for `NaN`); nothing when closed, without a project or
   * without a translation.
   */
  function ViewFor(isOpen: bool, project: Option<GalleryProject>, code: string, index: Option<nat>): (v: Option<View>)
    ensures v.Some? <==> isOpen && project.Some? && project.value.translations != []
    ensures v.Some? ==> Some(v.value.translation) == PickTranslation(project.value.translations, code)
    ensures v.Some? ==> (v.value.current.Some? <==> index.Some? && index.value < |project.value.images|)
    ensures v.Some? && v.value.current.Some? ==> v.value.current.value == project.value.images[index.value]
    ensures v.Some? ==> (v.value.navigation <==> v.value.current.Some? && |project.value.images| > 1)
    ensures v.Some? ==> (v.value.counter.Some? <==> v.value.navigation)
    ensures v.Some? && v.value.counter.Some? ==> v.value.counter.value == (index.value + 1, |project.value.images|)
    ensures v.Some? ==> (v.value.thumbnails <==> |project.value.images| > 1)
    ensures v.Some? ==> (v.value.description.Some? <==> DescriptionTruthy(v.value.translation.description))
    ensures v.Some? && v.value.description.Some? ==> v.value.description.value == DescriptionText(v.value.translation.description)
  {
    if !isOpen || project.None? then None
    else
      var p := project.value;
      match PickTranslation(p.translations, code)
      case None => None
      case Some(t) =>
        var n := |p.images|;
        var current := if index.Some? && index.value < n then Some(p.images[index.value]) else None;
        var nav := current.Some? && n > 1;
        Some(View(t, current, nav, if nav then Some((index.value + 1, n)) else None, n > 1,
                  if DescriptionTruthy(t.description) then Some(DescriptionText(t.description)) else None))
  }

  /** The carousel state of an open modal. */
  class Viewer {
    var project: Option<GalleryProject>
    var isOpen: bool
    var index: Option<nat>

    /** Whenever there are images the index points at one of them. */
    predicate Valid()
      reads this
    {
      project.Some? && |project.value.images| > 0 ==> index.Some? && index.value < |project.value.images|
    }

    constructor (project: Option<GalleryProject>, isOpen: bool)
      ensures this.project == project && this.isOpen == isOpen && index == Some(0)
    {
      this.project := project;
      this.isOpen := isOpen;
      index := Some(0);
    }

    /** The effect on a new `project` prop: back to the first image. */
    method ProjectChanged(p: Option<GalleryProject>)
      modifies this
      ensures project == p && index == Some(0) && isOpen == old(isOpen)
      ensures Valid()
    {
      project := p;
      index := Some(0);
    }

    /** `nextImage`, from the arrow button. */
    method NextImage()
      requires project.Some?
      modifies this
      ensures project == old(project) && isOpen == old(isOpen)
      ensures index == (if old(index).Some? then NextIndex(old(index).value, |project.value.images|) else None)
      ensures old(Valid()) ==> Valid()
    {
      if index.Some? {
        index := NextIndex(index.value, |project.value.images|);
      }
    }

    /** `previousImage`, from the arrow button. */
    method PreviousImage()
      requires project.Some?
      modifies this
      ensures project == old(project) && isOpen == old(isOpen)
      ensures index == (if old(index).Some? then PreviousIndex(old(index).value, |project.value.images|) else None)
      ensures old(Valid()) ==> Valid()
    {
      if index.Some? {
        index := PreviousIndex(index.value, |project.value.images|);
      }
    }

    /** Clicking thumbnail `k`. */
    method SelectThumbnail(k: nat)
      requires project.Some? && k < |project.value.images|
      modifies this
      ensures index == Some(k) && project == old(project) && isOpen == old(isOpen)
      ensures Valid()
    {
      index := Some(k);
    }
  }
}
