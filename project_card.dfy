/** A project's card in the public gallery. */
module ProjectCard {
  import opened Base
  import opened GalleryData

  /** The language a card uses when it is given none. */
  const DefaultLanguage: string := "nl"

  /** What a card shows: its translation, its thumbnail, the first materials and the "+k more" count. */
  datatype Card = Card(translation: GalleryTranslation, thumbnail: GalleryPicture, materials: seq<string>, more: Option<nat>)

  /** The card of `project` in language `code`; nothing without a translation or an image. */
  function CardFor(project: GalleryProject, code: string): (c: Option<Card>)
    ensures c.None? <==> project.translations == [] || project.images == []
    ensures c.Some? ==> Some(c.value.translation) == PickTranslation(project.translations, code)
    ensures c.Some? ==> c.value.thumbnail == project.images[0]
    ensures c.Some? ==> c.value.materials == ShownMaterials(c.value.translation.materials)
    ensures c.Some? ==> c.value.more == MoreCount(c.value.translation.materials)
  {
    match PickTranslation(project.translations, code)
    case None => None
    case Some(t) =>
      if project.images == [] then None
      else Some(Card(t, project.images[0], ShownMaterials(t.materials), MoreCount(t.materials)))
  }

  /** `materials.slice(0, 3)`. */
  function ShownMaterials(ms: seq<string>): (r: seq<string>)
    ensures |r| <= 3 && |r| <= |ms| && r == ms[..|r|]
    ensures |ms| <= 3 ==> r == ms
    ensures |ms| > 3 ==> |r| == 3
  {
    if |ms| <= 3 then ms else ms[..3]
  }

  /** `+{length - 3} more`, shown only beyond three materials. */
  function MoreCount(ms: seq<string>): (k: Option<nat>)
    ensures k.Some? <==> |ms| > 3
    ensures k.Some? ==> k.value == |ms| - 3
  {
    if |ms| > 3 then Some(|ms| - 3) else None
  }

  /** The shown materials and the "+k more" count together account for every material. */
  lemma MaterialsAccounted(ms: seq<string>)
    ensures |ShownMaterials(ms)| + MoreCount(ms).GetOr(0) == |ms|
    ensures ShownMaterials(ms) + ms[|ShownMaterials(ms)|..] == ms
  {
  }
}
