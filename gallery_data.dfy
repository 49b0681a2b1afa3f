/** A published project as the public gallery receives it, and the choice of translation it shows. */
module GalleryData {
  import opened Base
  import opened RichText

  /** A translation with the code of its language (`t.language.code`). */
  datatype GalleryTranslation = GalleryTranslation(languageCode: string, title: string, description: Description, materials: seq<string>)

  datatype GalleryPicture = GalleryPicture(id: string, originalUrl: string, thumbnailUrl: string, alt: string)

  datatype GalleryProject = GalleryProject(id: string, featured: bool, translations: seq<GalleryTranslation>, images: seq<GalleryPicture>)

  /** `translations.find(t => t.language.code === code)`. */
  function FindByCode(ts: seq<GalleryTranslation>, code: string): (r: Option<GalleryTranslation>)
    ensures r.None? <==> forall i :: 0 <= i < |ts| ==> ts[i].languageCode != code
    ensures r.Some? ==> r.value.languageCode == code && r.value in ts
  {
    if ts == [] then None
    else if ts[0].languageCode == code then Some(ts[0])
    else FindByCode(ts[1..], code)
  }

  /** The translation found is the first one in that language. */
  lemma {:induction false} FindByCodeIsFirst(ts: seq<GalleryTranslation>, code: string)
    ensures FindByCode(ts, code).Some? ==>
      exists i :: 0 <= i < |ts| && ts[i] == FindByCode(ts, code).value
        && forall j :: 0 <= j < i ==> ts[j].languageCode != code
  {
    if ts != [] && ts[0].languageCode != code {
      var rest := ts[1..];
      FindByCodeIsFirst(rest, code);
      if FindByCode(rest, code).Some? {
        var i :| 0 <= i < |rest| && rest[i] == FindByCode(rest, code).value
          && forall j :: 0 <= j < i ==> rest[j].languageCode != code;
        assert ts[i + 1] == rest[i];
        assert forall j :: 0 < j <= i ==> ts[j] == rest[j - 1];
      }
    }
  }

  /** `find(...) || translations[0]`: the translation in `code`, else the first, else none. */
  function PickTranslation(ts: seq<GalleryTranslation>, code: string): (r: Option<GalleryTranslation>)
    ensures r.None? <==> ts == []
    ensures r.Some? ==> r.value in ts
  {
    match FindByCode(ts, code)
    case Some(t) => Some(t)
    case None => if ts == [] then None else Some(ts[0])
  }

  /** The requested language wins whenever the project has it; otherwise the first translation is shown. */
  lemma PickTranslationChoice(ts: seq<GalleryTranslation>, code: string)
    ensures (exists i :: 0 <= i < |ts| && ts[i].languageCode == code) ==>
      PickTranslation(ts, code).Some? && PickTranslation(ts, code).value.languageCode == code
    ensures ts != [] && (forall i :: 0 <= i < |ts| ==> ts[i].languageCode != code) ==>
      PickTranslation(ts, code) == Some(ts[0])
  {
  }
}
