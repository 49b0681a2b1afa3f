/**
 * The pure parts of rendering one page-builder component: resolving a
 * text field for the current language, the container style defaults, and
 * the small value-to-class mappings of the per-type switch.
 */
module ComponentRenderer {
  import opened Base
  import opened LangText
  import opened PageData

  /** The language a renderer uses when it is given none. */
  const DefaultLanguage: string := "nl"

  /** `m[k] || ...`: the entry for `k` when it is present and non-empty. */
  function NonEmpty(m: LangMap, k: string): (r: Option<string>)
    ensures r.Some? <==> Lookup(m, k).Some? && Lookup(m, k).value != ""
    ensures r.Some? ==> r == Lookup(m, k)
  {
    match Lookup(m, k)
    case Some(s) => if s != "" then Some(s) else None
    case None => None
  }

  /**
   * `text[currentLanguage] || text['nl'] || Object.values(text)[0] || ''`:
   * the current language's entry, else the Dutch one, else the first entry.
   */
  function Resolve(m: LangMap, lang: string): (r: string)
    ensures NonEmpty(m, lang).Some? ==> r == NonEmpty(m, lang).value
    ensures NonEmpty(m, lang).None? && NonEmpty(m, "nl").Some? ==> r == NonEmpty(m, "nl").value
    ensures NonEmpty(m, lang).None? && NonEmpty(m, "nl").None? ==> r == (if m == [] then "" else m[0].1)
  {
    if NonEmpty(m, lang).Some? then NonEmpty(m, lang).value
    else if NonEmpty(m, "nl").Some? then NonEmpty(m, "nl").value
    else if m != [] then Values(m)[0]
    else ""
  }

  /** `getText(text)`: total, and `''` for an absent field. */
  function GetText(v: Option<Value>, lang: string): (r: string)
    ensures v.None? ==> r == ""
    ensures v.Some? && v.value.Str? ==> r == v.value.s
    ensures v.Some? && v.value.Langs? ==> r == Resolve(v.value.m, lang)
    ensures v.Some? && !v.value.Str? && !v.value.Langs? ==> r == ""
  {
    match v
    case None => ""
    case Some(Str(s)) => s
    case Some(Langs(m)) => Resolve(m, lang)
    case Some(_) => ""
  }

  /** Resolution only ever yields one of the map's own texts, or `''`. */
  lemma {:induction false} ResolveIsAnEntry(m: LangMap, lang: string)
    ensures Resolve(m, lang) == "" || Resolve(m, lang) in Values(m)
  {
    var r := Resolve(m, lang);
    if NonEmpty(m, lang).Some? {
      var i :| 0 <= i < |m| && m[i] == (lang, r);
      assert Values(m)[i] == r;
    } else if NonEmpty(m, "nl").Some? {
      var i :| 0 <= i < |m| && m[i] == ("nl", r);
      assert Values(m)[i] == r;
    }
  }

  /** A map whose texts are all empty resolves to `''` whatever the language. */
  lemma ResolveAllEmpty(m: LangMap, lang: string)
    requires forall i :: 0 <= i < |m| ==> m[i].1 == ""
    ensures Resolve(m, lang) == ""
  {
    ResolveIsAnEntry(m, lang);
  }

  /** A non-empty entry for the requested language always wins. */
  lemma ResolveRequested(m: LangMap, lang: string, i: nat)
    requires UniqueKeys(m) && i < |m| && m[i].0 == lang && m[i].1 != ""
    ensures Resolve(m, lang) == m[i].1
  {
    LookupAt(m, i);
  }

  /** The inline style of a component's container. */
  datatype Style = Style(backgroundColor: string, color: string, padding: Option<(int, int, int, int)>)

  /** `data[key] || fallback` for a string-valued field. */
  function StringOr(data: ComponentData, key: string, fallback: string): (r: string)
    ensures key !in data ==> r == fallback
    ensures key in data && data[key].Str? && data[key].s != "" ==> r == data[key].s
    ensures key in data && (!data[key].Str? || data[key].s == "") ==> r == fallback
  {
    match Field(data, key)
    case Some(Str(s)) => if s != "" then s else fallback
    case _ => fallback
  }

  /** `containerStyle`: white background and black text unless data says otherwise. */
  function ContainerStyle(data: ComponentData): (st: Style)
    ensures st.backgroundColor != "" && st.color != ""
    ensures "backgroundColor" !in data ==> st.backgroundColor == "#ffffff"
    ensures "textColor" !in data ==> st.color == "#000000"
    ensures st.padding.Some? <==> "padding" in data && data["padding"].Pad?
    ensures "backgroundColor" in data && data["backgroundColor"].Str? && data["backgroundColor"].s != "" ==>
      st.backgroundColor == data["backgroundColor"].s
    ensures "textColor" in data && data["textColor"].Str? && data["textColor"].s != "" ==>
      st.color == data["textColor"].s
    ensures "backgroundColor" in data && !(data["backgroundColor"].Str? && data["backgroundColor"].s != "") ==>
      st.backgroundColor == "#ffffff"
    ensures "textColor" in data && !(data["textColor"].Str? && data["textColor"].s != "") ==>
      st.color == "#000000"
    ensures st.padding.Some? ==> data["padding"] == Pad(st.padding.value.0, st.padding.value.1,
                                                        st.padding.value.2, st.padding.value.3)
  {
    Style(
      StringOr(data, "backgroundColor", "#ffffff"),
      StringOr(data, "textColor", "#000000"),
      match Field(data, "padding")
      case Some(Pad(t, r, b, l)) => Some((t, r, b, l))
      case _ => None)
  }

  /** The text-alignment class of a text component. */
  function AlignmentClass(alignment: Option<Value>): (c: string)
    ensures c == "text-center" <==> alignment == Some(Str("center"))
    ensures c == "text-right" <==> alignment == Some(Str("right"))
    ensures c == "text-left" <==> alignment != Some(Str("center")) && alignment != Some(Str("right"))
  {
    if alignment == Some(Str("center")) then "text-center"
    else if alignment == Some(Str("right")) then "text-right"
    else "text-left"
  }

  /** The large-screen grid class of a gallery: 4, 3 and 2 columns as asked, anything else 3. */
  function ColumnsClass(columns: Option<Value>): (c: string)
    ensures c in {"lg:grid-cols-4", "lg:grid-cols-3", "lg:grid-cols-2"}
    ensures c == "lg:grid-cols-4" <==> columns == Some(Num(4))
    ensures c == "lg:grid-cols-2" <==> columns == Some(Num(2))
  {
    if columns == Some(Num(4)) then "lg:grid-cols-4"
    else if columns == Some(Num(3)) then "lg:grid-cols-3"
    else if columns == Some(Num(2)) then "lg:grid-cols-2"
    else "lg:grid-cols-3"
  }

  datatype Icon = Award | Users | Clock | Star | Check | Heart | Shield | Zap | Target | Lightbulb | Palette

  /** The `icons` table of a features component. */
  const IconTable: map<string, Icon> := map[
    "award" := Award, "users" := Users, "clock" := Clock, "star" := Star, "check" := Check,
    "heart" := Heart, "shield" := Shield, "zap" := Zap, "target" := Target,
    "lightbulb" := Lightbulb, "palette" := Palette]

  /** The icon named by a feature; an unknown name falls back to `Award`. */
  function IconFor(name: string): (i: Icon)
    ensures name in IconTable ==> i == IconTable[name]
    ensures name !in IconTable ==> i == Award
  {
    if name == "users" then Users
    else if name == "clock" then Clock
    else if name == "star" then Star
    else if name == "check" then Check
    else if name == "heart" then Heart
    else if name == "shield" then Shield
    else if name == "zap" then Zap
    else if name == "target" then Target
    else if name == "lightbulb" then Lightbulb
    else if name == "palette" then Palette
    else Award
  }

  /** No two names in the table give the same icon. */
  lemma IconTableOneToOne(a: string, b: string)
    requires a in IconTable && b in IconTable && a != b
    ensures IconFor(a) != IconFor(b)
  {
  }

  /** Where `slice(0, end)` stops on a list of `len` items, negative ends counting from the back. */
  function SliceEnd(len: nat, end: int): (e: nat)
    ensures e <= len
    ensures 0 <= end <= len ==> e == end
    ensures end > len ==> e == len
    ensures end < 0 ==> e == if len + end > 0 then len + end else 0
  {
    if end < 0 then (if len + end > 0 then len + end else 0)
    else if end > len then len
    else end
  }

  /** `data.maxItems || 8`, as `slice` and `>` read it: `true` counts as 1. */
  function FeaturedLimit(maxItems: Option<Value>): (n: int)
    ensures !Truthy(maxItems) || !(maxItems.value.Num? || maxItems.value.Flag?) ==> n == 8
    ensures Truthy(maxItems) && maxItems.value.Num? ==> n == maxItems.value.n && n != 0
    ensures maxItems == Some(Flag(true)) ==> n == 1
  {
    match maxItems
    case Some(Num(n)) => if n != 0 then n else 8
    case Some(Flag(b)) => if b then 1 else 8
    case _ => 8
  }

  /** The featured projects a gallery lists, and whether it offers "View All Projects". */
  datatype FeaturedView<T> = FeaturedView(shown: seq<T>, viewAll: bool)

  function Featured<T>(projects: seq<T>, maxItems: Option<Value>): (v: FeaturedView<T>)
    ensures v.shown == projects[..SliceEnd(|projects|, FeaturedLimit(maxItems))]
    ensures v.viewAll <==> |projects| > FeaturedLimit(maxItems)
  {
    var limit := FeaturedLimit(maxItems);
    FeaturedView(projects[..SliceEnd(|projects|, limit)], |projects| > limit)
  }

  /** With a positive limit, a gallery lists everything exactly when it offers no "View All". */
  lemma FeaturedAllOrViewAll<T>(projects: seq<T>, maxItems: Option<Value>)
    requires FeaturedLimit(maxItems) > 0
    ensures Featured(projects, maxItems).viewAll <==> Featured(projects, maxItems).shown != projects
    ensures |Featured(projects, maxItems).shown| <= FeaturedLimit(maxItems)
  {
  }

  /** A spacer's height in pixels: `data.height || 60`. */
  function SpacerHeight(data: ComponentData): (h: int)
    ensures h != 0
    ensures "height" in data && data["height"].Num? && data["height"].n != 0 ==> h == data["height"].n
    ensures !("height" in data && data["height"].Num? && data["height"].n != 0) ==> h == 60
  {
    match Field(data, "height")
    case Some(Num(n)) => if n != 0 then n else 60
    case _ => 60
  }

  /** The part of a gallery under its heading. */
  datatype GalleryBody<T> = FeaturedGrid(view: FeaturedView<T>) | ImageGrid(images: seq<GalleryImage>) | NoProjects

  function GallerySection<T>(data: ComponentData, featured: seq<T>): (b: GalleryBody<T>)
    ensures b.FeaturedGrid? <==> Truthy(Field(data, "showFeatured")) && |featured| > 0
    ensures b.FeaturedGrid? ==> b.view == Featured(featured, Field(data, "maxItems"))
    ensures b.ImageGrid? ==> |b.images| > 0 && Field(data, "images") == Some(Images(b.images))
    ensures var imgs := Field(data, "images");
      !b.FeaturedGrid? && imgs.Some? && imgs.value.Images? && |imgs.value.images| > 0 ==> b == ImageGrid(imgs.value.images)
    ensures !b.FeaturedGrid? && !b.ImageGrid? ==> b == NoProjects
  {
    if Truthy(Field(data, "showFeatured")) && |featured| > 0 then FeaturedGrid(Featured(featured, Field(data, "maxItems")))
    else match Field(data, "images")
      case Some(Images(imgs)) => if |imgs| > 0 then ImageGrid(imgs) else NoProjects
      case _ => NoProjects
  }

  /** The heading of a call-to-action: `getText(data.title || data.heading)`. */
  function CtaHeading(data: ComponentData, lang: string): (h: string)
    ensures Truthy(Field(data, "title")) ==> h == GetText(Field(data, "title"), lang)
    ensures !Truthy(Field(data, "title")) ==> h == GetText(Field(data, "heading"), lang)
  {
    GetText(OrElse(Field(data, "title"), Field(data, "heading")), lang)
  }
}
