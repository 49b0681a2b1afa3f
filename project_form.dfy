/**
 * The admin project form: per-language translation edits, the
 * comma-separated materials field, and building and sending the save
 * request.
 */
module ProjectForm {
  import opened Base
  import opened Strings
  import opened LanguageData

  datatype FormTranslation = FormTranslation(languageId: string, title: string, description: string, materials: seq<string>)

  datatype FormImage = FormImage(id: Option<string>, originalUrl: string, thumbnailUrl: string, alt: string, order: int)

  /** One of the three fields `handleTranslationChange` is called with, and its new value. */
  datatype Change = SetTitle(title: string) | SetDescription(description: string) | SetMaterials(materials: seq<string>)

  /** `{ ...t, [field]: value }`. */
  function Apply(t: FormTranslation, c: Change): (r: FormTranslation)
    ensures r.languageId == t.languageId
    ensures r.title == (if c.SetTitle? then c.title else t.title)
    ensures r.description == (if c.SetDescription? then c.description else t.description)
    ensures r.materials == (if c.SetMaterials? then c.materials else t.materials)
  {
    match c
    case SetTitle(x) => t.(title := x)
    case SetDescription(x) => t.(description := x)
    case SetMaterials(x) => t.(materials := x)
  }

  /** `handleTranslationChange(languageId, field, value)` on the list of translations. */
  function ChangeTranslation(ts: seq<FormTranslation>, languageId: string, c: Change): (r: seq<FormTranslation>)
    ensures |r| == |ts|
    ensures forall i :: 0 <= i < |ts| && ts[i].languageId != languageId ==> r[i] == ts[i]
    ensures forall i :: 0 <= i < |ts| && ts[i].languageId == languageId ==> r[i] == Apply(ts[i], c)
  {
    seq(|ts|, i requires 0 <= i < |ts| => if ts[i].languageId == languageId then Apply(ts[i], c) else ts[i])
  }

  /** Without a translation for that language the edit changes nothing. */
  lemma ChangeUnknownLanguage(ts: seq<FormTranslation>, languageId: string, c: Change)
    requires forall i :: 0 <= i < |ts| ==> ts[i].languageId != languageId
    ensures ChangeTranslation(ts, languageId, c) == ts
  {
  }

  /** The same field edited twice keeps only the second value. */
  lemma ChangeTwiceLastWins(ts: seq<FormTranslation>, languageId: string, x: string, y: string)
    ensures ChangeTranslation(ChangeTranslation(ts, languageId, SetTitle(x)), languageId, SetTitle(y))
         == ChangeTranslation(ts, languageId, SetTitle(y))
  {
  }

  /** `handleMaterialsChange(languageId, text)`. */
  function ChangeMaterials(ts: seq<FormTranslation>, languageId: string, text: string): (r: seq<FormTranslation>)
    ensures |r| == |ts|
    ensures forall i :: 0 <= i < |ts| && ts[i].languageId == languageId ==>
      r[i].materials == ParseList(text, ',') && r[i].title == ts[i].title && r[i].description == ts[i].description
      && r[i].languageId == languageId
    ensures forall i :: 0 <= i < |ts| && ts[i].languageId != languageId ==> r[i] == ts[i]
  {
    ChangeTranslation(ts, languageId, SetMaterials(ParseList(text, ',')))
  }

  /** `translation.materials.join(', ')`, the text the materials field shows. */
  function MaterialsText(t: FormTranslation): string {
    Join(t.materials, ", ")
  }

  /**
   * Every stored list of materials is made of non-empty, trimmed items
   * without a comma.
   */
  lemma MaterialsChangeItems(ts: seq<FormTranslation>, languageId: string, text: string, i: nat)
    requires i < |ts| && ts[i].languageId == languageId
    ensures forall k :: 0 <= k < |ChangeMaterials(ts, languageId, text)[i].materials| ==>
      var m := ChangeMaterials(ts, languageId, text)[i].materials[k]; m != "" && IsTrimmed(m) && ',' !in m
  {
    ParseListItems(text, ',');
  }

  /**
   * Submitting the shown text of a clean list of materials unchanged leaves
   * the translation as it was.
   */
  lemma MaterialsFieldRoundTrip(ts: seq<FormTranslation>, i: nat)
    requires i < |ts|
    requires forall k :: 0 <= k < |ts[i].materials| ==>
      ts[i].materials[k] != "" && IsTrimmed(ts[i].materials[k]) && ',' !in ts[i].materials[k]
    ensures ChangeMaterials(ts, ts[i].languageId, MaterialsText(ts[i]))[i] == ts[i]
  {
    ParseListOfJoin(ts[i].materials);
  }

  /** `translations.filter(t => t.title.trim())`. */
  function Titled(ts: seq<FormTranslation>): (r: seq<FormTranslation>)
    ensures |r| <= |ts|
    ensures forall t :: t in r <==> t in ts && Trim(t.title) != ""
  {
    if ts == [] then []
    else if Trim(ts[0].title) != "" then [ts[0]] + Titled(ts[1..])
    else Titled(ts[1..])
  }

  /** Each translation with a title is kept as often as it occurs; the others are dropped. */
  lemma {:induction false} TitledCounts(ts: seq<FormTranslation>, t: FormTranslation)
    ensures multiset(Titled(ts))[t] == if Trim(t.title) != "" then multiset(ts)[t] else 0
  {
    if ts != [] {
      assert ts == [ts[0]] + ts[1..];
      TitledCounts(ts[1..], t);
      if Trim(ts[0].title) != "" {
        assert Titled(ts) == [ts[0]] + Titled(ts[1..]);
      } else {
        assert Titled(ts) == Titled(ts[1..]);
      }
    }
  }

  /** Filtering a concatenation filters each part, in order. */
  lemma {:induction false} TitledAppend(a: seq<FormTranslation>, b: seq<FormTranslation>)
    ensures Titled(a + b) == Titled(a) + Titled(b)
  {
    if a == [] {
      assert a + b == b;
    } else {
      assert (a + b)[1..] == a[1..] + b;
      TitledAppend(a[1..], b);
    }
  }

  datatype RequestImage = RequestImage(originalUrl: string, thumbnailUrl: string, alt: string, order: int)

  datatype SaveRequest = SaveRequest(
    contentTypeId: string, featured: bool, published: bool,
    translations: seq<FormTranslation>, images: seq<RequestImage>)

  /** `{ originalUrl, thumbnailUrl, alt, order }`: the image row without its id. */
  function RequestImageOf(img: FormImage): (r: RequestImage)
    ensures r.originalUrl == img.originalUrl && r.thumbnailUrl == img.thumbnailUrl
    ensures r.alt == img.alt && r.order == img.order
  {
    RequestImage(img.originalUrl, img.thumbnailUrl, img.alt, img.order)
  }

  const NoTitleError := "At least one translation with a title is required"

  /**
   * The body of the save request, or the validation message. A description
   * is sent as `t.description || ''`, which on a string is the string itself.
   */
  function BuildRequest(contentTypeId: string, featured: bool, published: bool,
                        ts: seq<FormTranslation>, images: seq<FormImage>): (r: Result<SaveRequest, string>)
    ensures r.Failure? <==> forall t :: t in ts ==> Trim(t.title) == ""
    ensures r.Failure? ==> r.error == NoTitleError
    ensures r.Success? ==> r.value.translations == Titled(ts) && r.value.translations != []
    ensures r.Success? ==> (r.value.contentTypeId == contentTypeId && r.value.featured == featured
      && r.value.published == published)
    ensures r.Success? ==> (|r.value.images| == |images|
      && forall k :: 0 <= k < |images| ==> r.value.images[k] == RequestImageOf(images[k]))
  {
    var valid := Titled(ts);
    if valid == [] then
      assert forall t :: t in ts ==> Trim(t.title) == "";
      Failure(NoTitleError)
    else
      assert valid[0] in ts;
      Success(RequestOf(contentTypeId, featured, published, valid, images))
  }

  /** The body sent for the kept translations and the form's images. */
  function RequestOf(contentTypeId: string, featured: bool, published: bool,
                     valid: seq<FormTranslation>, images: seq<FormImage>): (q: SaveRequest)
    ensures q.translations == valid
    ensures q.contentTypeId == contentTypeId && q.featured == featured && q.published == published
    ensures |q.images| == |images| && forall k :: 0 <= k < |images| ==> q.images[k] == RequestImageOf(images[k])
  {
    SaveRequest(contentTypeId, featured, published, valid,
      seq(|images|, k requires 0 <= k < |images| => RequestImageOf(images[k])))
  }

  datatype Endpoint = Endpoint(httpMethod: string, url: string)

  /** Editing an existing project updates it in place; otherwise a new one is created. */
  function EndpointFor(projectId: Option<string>): (e: Endpoint)
    ensures projectId.Some? ==> e == Endpoint("PUT", "/api/projects/" + projectId.value)
    ensures projectId.None? ==> e == Endpoint("POST", "/api/projects")
  {
    if projectId.Some? then Endpoint("PUT", "/api/projects/" + projectId.value)
    else Endpoint("POST", "/api/projects")
  }

  /** The two languages the form offers. */
  const FormLanguages := [
    Language("1", "nl", "Nederlands", true, true),
    Language("2", "fr", "Français", false, true)
  ]

  /** `getLanguageName`: the language's name, or "Unknown Language". */
  function LanguageName(langs: seq<Language>, id: string): (r: string)
    ensures r != ""
    ensures (forall i :: 0 <= i < |langs| ==> langs[i].id != id) ==> r == "Unknown Language"
    ensures FindById(langs, id).Some? && FindById(langs, id).value.name != "" ==> r == FindById(langs, id).value.name
    ensures FindById(langs, id).Some? && FindById(langs, id).value.name == "" ==> r == "Unknown Language"
  {
    var l := FindById(langs, id);
    if l.Some? && l.value.name != "" then l.value.name else "Unknown Language"
  }

  /** How a sent save request ended. */
  datatype SaveResult =
    | Saved
    | Refused(errorField: Option<string>)   // `errorData.error`, if the body had one
    | Thrown(message: string)               // the request, or reading the refusal, threw

  /** `errorData.error || 'Failed to save project'`. */
  function RefusalMessage(error: Option<string>): (m: string)
    ensures m != ""
    ensures error.Some? && error.value != "" ==> m == error.value
    ensures error.None? || error.value == "" ==> m == "Failed to save project"
  {
    if error.Some? && error.value != "" then error.value else "Failed to save project"
  }

  /** An existing project the form is opened on. */
  datatype ExistingProject = ExistingProject(
    id: string, contentTypeId: string, featured: bool, published: bool,
    translations: seq<FormTranslation>, images: seq<FormImage>)

  class Editor {
    const projectId: Option<string>
    var contentTypeId: string
    var featured: bool
    var published: bool
    var translations: seq<FormTranslation>
    var images: seq<FormImage>
    var loading: bool
    var error: Option<string>

    /**
     * The form after both effects ran: an existing project is copied in; a
     * new one starts with an empty translation for each of the two languages
     * and the only content type.
     */
    constructor (project: Option<ExistingProject>)
      ensures projectId == (if project.Some? then Some(project.value.id) else None)
      ensures project.Some? ==> (contentTypeId == project.value.contentTypeId && featured == project.value.featured
        && published == project.value.published && translations == project.value.translations
        && images == project.value.images)
      ensures project.None? ==> (contentTypeId == "1" && !featured && published && images == []
        && translations == [FormTranslation("1", "", "", []), FormTranslation("2", "", "", [])])
      ensures !loading && error.None?
    {
      loading := false;
      error := None;
      if project.Some? {
        var p := project.value;
        projectId := Some(p.id);
        contentTypeId := p.contentTypeId;
        featured := p.featured;
        published := p.published;
        translations := p.translations;
        images := p.images;
      } else {
        projectId := None;
        contentTypeId := "1";
        featured := false;
        published := true;
        translations := [FormTranslation("1", "", "", []), FormTranslation("2", "", "", [])];
        images := [];
      }
    }

    method HandleTranslationChange(languageId: string, c: Change)
      modifies this
      ensures translations == ChangeTranslation(old(translations), languageId, c)
      ensures images == old(images) && error == old(error) && loading == old(loading)
      ensures contentTypeId == old(contentTypeId) && featured == old(featured) && published == old(published)
    {
      translations := ChangeTranslation(translations, languageId, c);
    }

    method HandleMaterialsChange(languageId: string, text: string)
      modifies this
      ensures images == old(images) && error == old(error) && loading == old(loading)
      ensures contentTypeId == old(contentTypeId) && featured == old(featured) && published == old(published)
      ensures translations == ChangeMaterials(old(translations), languageId, text)
    {
      var materials := ParseList(text, ',');
      HandleTranslationChange(languageId, SetMaterials(materials));
    }

    /** The image uploader's `onImagesChange`: the uploader's list replaces the form's. */
    method HandleImagesChange(newImages: seq<FormImage>)
      modifies this
      ensures images == newImages
      ensures translations == old(translations) && error == old(error) && loading == old(loading)
      ensures contentTypeId == old(contentTypeId) && featured == old(featured) && published == old(published)
    {
      images := newImages;
    }

    /**
     * `handleSubmit`: `sent` is the request that went out, if any, and
     * `saved` whether `onSave` was called. The form's fields are left as
     * they were.
     */
    method Submit(result: SaveResult) returns (sent: Option<(Endpoint, SaveRequest)>, saved: bool)
      modifies this
      ensures translations == old(translations) && images == old(images)
      ensures contentTypeId == old(contentTypeId) && featured == old(featured) && published == old(published)
      ensures !loading
      ensures var r := BuildRequest(contentTypeId, featured, published, translations, images);
        sent == (if r.Success? then Some((EndpointFor(projectId), r.value)) else None)
      ensures sent.None? ==> !saved && error == Some(NoTitleError)
      ensures sent.Some? ==> (saved <==> result.Saved?)
      ensures sent.Some? && result.Saved? ==> error.None?
      ensures sent.Some? && result.Refused? ==> error == Some(RefusalMessage(result.errorField))
      ensures sent.Some? && result.Thrown? ==> error == Some(result.message)
    {
      loading := true;
      error := None;
      saved := false;
      var r := BuildRequest(contentTypeId, featured, published, translations, images);
      if r.Failure? {
        sent := None;
        error := Some(r.error);
      } else {
        sent := Some((EndpointFor(projectId), r.value));
        match result {
          case Saved => saved := true;
          case Refused(e) => error := Some(RefusalMessage(e));
          case Thrown(m) => error := Some(m);
        }
      }
      loading := false;
    }
  }
}
