/**
 * The sidebar editor of one page-builder component: record and per-language
 * updates handed to `onChange`, reading a field back for one language, the
 * media-library hand-off, and the editor's own view state.
 */
module ComponentEditor {
  import opened Base
  import opened Strings
  import opened LangText
  import opened PageData
  import opened PageBuilder
  import opened LanguageData
  import ComponentRenderer
  import MediaLibrary

  /** `{ ...data, [key]: value }`. */
  function UpdateData(data: ComponentData, key: string, value: Value): (r: ComponentData)
    ensures r.Keys == data.Keys + {key}
    ensures key in r && r[key] == value
    ensures forall k :: k in data && k != key ==> k in r && r[k] == data[k]
  {
    data[key := value]
  }

  /**
   * The entries of `{ ...currentValue }`: a language map keeps its entries,
   * a string spreads into one entry per character keyed by its index, and
   * an absent value or a number or boolean spreads into nothing.
   */
  function SpreadEntries(v: Option<Value>): (m: LangMap)
    ensures v.Some? && v.value.Langs? ==> m == v.value.m
    ensures v.Some? && v.value.Str? ==> |m| == |v.value.s|
    ensures v.Some? && v.value.Str? ==> forall i :: 0 <= i < |m| ==> m[i] == (NatToString(i), [v.value.s[i]])
    ensures v.None? || v.value.Num? || v.value.Flag? ==> m == []
  {
    match v
    case Some(Langs(m)) => m
    case Some(Str(s)) => seq(|s|, i requires 0 <= i < |s| => (NatToString(i), [s[i]]))
    case _ => []
  }

  /** `updateMultilingualText(key, languageCode, value)`: the record passed to `onChange`. */
  function UpdateMultilingualText(data: ComponentData, key: string, lang: string, v: string): (r: ComponentData)
    ensures r.Keys == data.Keys + {key}
    ensures forall k :: k in data && k != key ==> r[k] == data[k]
    ensures r[key].Langs? && Lookup(r[key].m, lang) == Some(v)
    ensures forall other :: other != lang ==> Lookup(r[key].m, other) == Lookup(SpreadEntries(Field(data, key)), other)
  {
    UpdateData(data, key, Langs(Set(SpreadEntries(Field(data, key)), lang, v)))
  }

  /** `getMultilingualText(key, languageCode)`: no fallback to other languages. */
  function GetMultilingualText(data: ComponentData, key: string, lang: string): (r: string)
    ensures !Truthy(Field(data, key)) ==> r == ""
    ensures key in data && data[key].Str? ==> r == data[key].s
    ensures key in data && data[key].Langs? ==> r == Lookup(data[key].m, lang).GetOr("")
    ensures key in data && !data[key].Str? && !data[key].Langs? ==> r == ""
  {
    match Field(data, key)
    case Some(Str(s)) => s
    case Some(Langs(m)) => Lookup(m, lang).GetOr("")
    case _ => ""
  }

  /** Reading back the language just edited gives the value just typed. */
  lemma EditThenRead(data: ComponentData, key: string, lang: string, v: string)
    ensures GetMultilingualText(UpdateMultilingualText(data, key, lang, v), key, lang) == v
  {
  }

  /** The renderer shows a non-empty edited text for that language. */
  lemma EditThenRender(data: ComponentData, key: string, lang: string, v: string)
    requires v != ""
    ensures ComponentRenderer.GetText(Field(UpdateMultilingualText(data, key, lang, v), key), lang) == v
  {
    var m := Set(SpreadEntries(Field(data, key)), lang, v);
    assert ComponentRenderer.NonEmpty(m, lang) == Some(v);
  }

  /** Editing one language of a language map keeps every other language's entry. */
  lemma EditKeepsOtherLanguages(data: ComponentData, key: string, lang: string, v: string, other: string)
    requires key in data && data[key].Langs? && other != lang
    ensures UpdateMultilingualText(data, key, lang, v)[key].Langs?
    ensures Lookup(UpdateMultilingualText(data, key, lang, v)[key].m, other) == Lookup(data[key].m, other)
  {
  }

  /** Editing one field's text leaves every other field of the record as it was. */
  lemma EditKeepsOtherFields(data: ComponentData, key: string, lang: string, v: string, k: string)
    requires k != key
    ensures Field(UpdateMultilingualText(data, key, lang, v), k) == Field(data, k)
  {
  }

  /** A language code that is not a run of digits, so never an array index. */
  predicate NotIndexLike(code: string) {
    exists j :: 0 <= j < |code| && !('0' <= code[j] <= '9')
  }

  /**
   * Editing one language of a field that holds a non-empty plain string
   * spreads the string into index-keyed characters before the new entry,
   * and every other language then renders as the string's first character.
   */
  lemma EditOfPlainString(data: ComponentData, key: string, s: string, lang: string, v: string, other: string)
    requires key in data && data[key] == Str(s) && s != ""
    requires NotIndexLike(lang) && NotIndexLike(other) && other != lang && lang != "nl"
    ensures UpdateMultilingualText(data, key, lang, v)[key] == Langs(SpreadEntries(Some(Str(s))) + [(lang, v)])
    ensures ComponentRenderer.GetText(Field(UpdateMultilingualText(data, key, lang, v), key), other) == [s[0]]
  {
    var m := SpreadEntries(Some(Str(s)));
    assert NotIndexLike("nl") by {
      assert !('0' <= "nl"[0] <= '9');
    }
    SpreadHasNoCode(s, lang);
    SpreadHasNoCode(s, other);
    SpreadHasNoCode(s, "nl");
    var m' := Set(m, lang, v);
    assert m' == m + [(lang, v)];
    LookupSnoc(m, lang, v, other);
    LookupSnoc(m, lang, v, "nl");
    assert m'[0] == (NatToString(0), [s[0]]);
  }

  /** A spread string has no entry for a language code. */
  lemma SpreadHasNoCode(s: string, code: string)
    requires NotIndexLike(code)
    ensures Lookup(SpreadEntries(Some(Str(s))), code) == None
  {
    var m := SpreadEntries(Some(Str(s)));
    forall i | 0 <= i < |m| ensures m[i].0 != code {
      IndexKeyIsNoCode(i, code);
    }
  }

  /** The index keys of a spread string never collide with a language code. */
  lemma IndexKeyIsNoCode(i: nat, code: string)
    requires NotIndexLike(code)
    ensures NatToString(i) != code
  {
    var j :| 0 <= j < |code| && !('0' <= code[j] <= '9');
    if |NatToString(i)| > j {
      assert '0' <= NatToString(i)[j] <= '9';
    }
  }

  /** `parseInt(e.target.value) || 60`, with `None` for an unparsable input. */
  function SpacerHeightInput(parsed: Option<int>): (h: int)
    ensures h != 0
    ensures parsed.Some? && parsed.value != 0 ==> h == parsed.value
    ensures parsed.None? || parsed.value == 0 ==> h == 60
  {
    if parsed.Some? && parsed.value != 0 then parsed.value else 60
  }

  /** The renderer draws a spacer exactly as tall as the editor stored it. */
  lemma SpacerHeightRoundTrip(data: ComponentData, parsed: Option<int>)
    ensures ComponentRenderer.SpacerHeight(UpdateData(data, "height", Num(SpacerHeightInput(parsed))))
      == SpacerHeightInput(parsed)
  {
  }

  /** `mediaList.map(media => ({ id, url: originalUrl, alt, caption: '' }))`. */
  function ToGalleryImages(list: seq<MediaLibrary.MediaItem>): (r: seq<GalleryImage>)
    ensures |r| == |list|
    ensures forall i :: 0 <= i < |r| ==>
      r[i] == GalleryImage(list[i].id, list[i].originalUrl, list[i].alt, "")
  {
    seq(|list|, i requires 0 <= i < |list| => GalleryImage(list[i].id, list[i].originalUrl, list[i].alt, ""))
  }

  /** `defaultLang?.code || 'nl'`. */
  function ActiveLanguageFor(langs: seq<Language>): (code: string)
    ensures code != ""
    ensures FindDefault(langs).Some? && FindDefault(langs).value.code != "" ==> code == FindDefault(langs).value.code
    ensures FindDefault(langs).None? || FindDefault(langs).value.code == "" ==> code == "nl"
  {
    match FindDefault(langs)
    case Some(l) => if l.code != "" then l.code else "nl"
    case None => "nl"
  }

  datatype SelectionMode = SingleMode | MultipleMode

  /**
   * The props the editor hands the media library as written: it passes
   * `selectionMode` and `allowUpload`, which the library does not read, so
   * the library stays in its default single-select `'manage'` mode.
   */
  function LibraryPropsAsWritten(mode: SelectionMode): (p: MediaLibrary.LibraryProps)
    ensures !p.allowMultiple && p.mode == MediaLibrary.Manage && !p.hasOnClose
    ensures p.hasOnSelect <==> mode == SingleMode
    ensures p.hasOnSelectMultiple <==> mode == MultipleMode
  {
    MediaLibrary.LibraryProps(false, MediaLibrary.Manage, mode == SingleMode, mode == MultipleMode, false)
  }

  /** As written, no click in the library ever reaches `handleMediaSelectMultiple`. */
  lemma MultipleSelectionUnreachableAsWritten(sel: seq<MediaLibrary.MediaItem>, item: MediaLibrary.MediaItem)
    ensures MediaLibrary.HandleSelectStep(LibraryPropsAsWritten(MultipleMode), sel, item).events == []
  {
  }

  /** The props the editor evidently means to pass: multiple selection turns on `allowMultiple`. */
  function LibraryPropsFor(mode: SelectionMode): (p: MediaLibrary.LibraryProps)
    ensures p.allowMultiple <==> mode == MultipleMode
    ensures p.hasOnSelect <==> mode == SingleMode
    ensures p.hasOnSelectMultiple <==> mode == MultipleMode
    ensures p.mode == MediaLibrary.Select && !p.hasOnClose
  {
    MediaLibrary.LibraryProps(mode == MultipleMode, MediaLibrary.Select, mode == SingleMode, mode == MultipleMode, false)
  }

  /** Each click in multiple mode reports the toggled selection; in single mode it reports the item. */
  lemma LibraryClicksReachEditor(sel: seq<MediaLibrary.MediaItem>, item: MediaLibrary.MediaItem)
    ensures MediaLibrary.HandleSelectStep(LibraryPropsFor(MultipleMode), sel, item).events
      == [MediaLibrary.SelectedMultiple(MediaLibrary.Toggle(sel, item))]
    ensures MediaLibrary.HandleSelectStep(LibraryPropsFor(SingleMode), sel, item).events
      == [MediaLibrary.SelectedOne(item)]
  {
  }

  class Editor {
    var component: PageComponent
    var showMediaLibrary: bool
    var mediaSelectionMode: SelectionMode
    var mediaTarget: string
    var languages: seq<Language>
    var activeLanguage: string

    constructor (component: PageComponent)
      ensures this.component == component && !showMediaLibrary && mediaSelectionMode == SingleMode
      ensures mediaTarget == "" && languages == [] && activeLanguage == "nl"
    {
      this.component := component;
      showMediaLibrary := false;
      mediaSelectionMode := SingleMode;
      mediaTarget := "";
      languages := [];
      activeLanguage := "nl";
    }

    /** The languages request answered; `None` stands for a failed or rejected request. */
    method LanguagesLoaded(response: Option<seq<Language>>)
      modifies this
      ensures response.Some? ==> languages == response.value && activeLanguage == ActiveLanguageFor(response.value)
      ensures response.None? ==> languages == old(languages) && activeLanguage == old(activeLanguage)
      ensures component == old(component) && showMediaLibrary == old(showMediaLibrary)
      ensures mediaTarget == old(mediaTarget) && mediaSelectionMode == old(mediaSelectionMode)
    {
      if response.Some? {
        languages := response.value;
        activeLanguage := ActiveLanguageFor(response.value);
      }
    }

    /** `openMediaLibrary(target, mode)`. */
    method OpenMediaLibrary(target: string, mode: SelectionMode)
      modifies this
      ensures mediaTarget == target && mediaSelectionMode == mode && showMediaLibrary
      ensures component == old(component) && languages == old(languages) && activeLanguage == old(activeLanguage)
    {
      mediaTarget := target;
      mediaSelectionMode := mode;
      showMediaLibrary := true;
    }

    /** The props of the library while it is open, as passed: multiple selection is never allowed. */
    function CurrentLibraryProps(): (p: MediaLibrary.LibraryProps)
      reads this
      ensures !p.allowMultiple
      ensures p.hasOnSelect <==> mediaSelectionMode == SingleMode
      ensures p.hasOnSelectMultiple <==> mediaSelectionMode == MultipleMode
    {
      LibraryPropsAsWritten(mediaSelectionMode)
    }

    /** `handleMediaSelect(media)`: the record handed to `onChange`, if any. */
    method HandleMediaSelect(media: MediaLibrary.MediaItem) returns (emitted: Option<ComponentData>)
      modifies this
      ensures emitted.Some? <==> old(mediaTarget) == "backgroundImage" || old(mediaTarget) == "imageUrl"
      ensures emitted.Some? ==> emitted.value == UpdateData(component.data, mediaTarget, Str(media.originalUrl))
      ensures !showMediaLibrary
      ensures component == old(component) && mediaTarget == old(mediaTarget)
      ensures mediaSelectionMode == old(mediaSelectionMode) && activeLanguage == old(activeLanguage)
      ensures languages == old(languages)
    {
      if mediaTarget == "backgroundImage" || mediaTarget == "imageUrl" {
        emitted := Some(UpdateData(component.data, mediaTarget, Str(media.originalUrl)));
      } else {
        emitted := None;
      }
      showMediaLibrary := false;
    }

    /** `handleMediaSelectMultiple(mediaList)`. */
    method HandleMediaSelectMultiple(list: seq<MediaLibrary.MediaItem>) returns (emitted: Option<ComponentData>)
      modifies this
      ensures emitted.Some? <==> old(mediaTarget) == "images"
      ensures emitted.Some? ==> emitted.value == UpdateData(component.data, "images", Images(ToGalleryImages(list)))
      ensures !showMediaLibrary
      ensures component == old(component) && mediaTarget == old(mediaTarget)
      ensures mediaSelectionMode == old(mediaSelectionMode) && activeLanguage == old(activeLanguage)
      ensures languages == old(languages)
    {
      if mediaTarget == "images" {
        emitted := Some(UpdateData(component.data, "images", Images(ToGalleryImages(list))));
      } else {
        emitted := None;
      }
      showMediaLibrary := false;
    }

    /** The "Back to Editor" button. */
    method BackToEditor()
      modifies this
      ensures !showMediaLibrary && component == old(component) && mediaTarget == old(mediaTarget)
      ensures mediaSelectionMode == old(mediaSelectionMode) && activeLanguage == old(activeLanguage)
      ensures languages == old(languages)
    {
      showMediaLibrary := false;
    }

    /** A new `component` prop from the page builder. */
    method Receive(c: PageComponent)
      modifies this
      ensures component == c && showMediaLibrary == old(showMediaLibrary) && mediaTarget == old(mediaTarget)
      ensures mediaSelectionMode == old(mediaSelectionMode) && activeLanguage == old(activeLanguage)
      ensures languages == old(languages)
    {
      component := c;
    }
  }

  /** The list and the sidebar's copy of the selected component, between two edits. */
  datatype Session = Session(components: seq<PageComponent>, selected: Option<PageComponent>)

  /** One sidebar edit as written: `updateData` on the sidebar copy, then `updateComponent`, copy kept. */
  function EditAsWritten(st: Session, key: string, value: Value): (r: Session)
    requires st.selected.Some?
    ensures r.selected == st.selected
    ensures r.components == Updated(st.components, st.selected.value.id, UpdateData(st.selected.value.data, key, value))
  {
    var c := st.selected.value;
    Session(Updated(st.components, c.id, UpdateData(c.data, key, value)), st.selected)
  }

  /** As written, a second edit is computed from the stale copy and the first edit is lost. */
  lemma SecondEditLosesFirstAsWritten()
    ensures var c := PageComponent("c", Spacer, 0, map[]);
      var st := EditAsWritten(EditAsWritten(Session([c], Some(c)), "a", Num(1)), "b", Num(2));
      |st.components| == 1 && "a" !in st.components[0].data
  {
    var c := PageComponent("c", Spacer, 0, map[]);
    var st1 := EditAsWritten(Session([c], Some(c)), "a", Num(1));
    assert st1.selected == Some(c);
    var st2 := EditAsWritten(st1, "b", Num(2));
    assert st2.components[0].data == map["b" := Num(2)];
  }

  /** One sidebar edit with `updateComponent` refreshing the selected copy. */
  function Edit(st: Session, key: string, value: Value): (r: Session)
    requires st.selected.Some?
    ensures r.selected.Some? && r.selected.value.id == st.selected.value.id
    ensures r.selected.value.data == UpdateData(st.selected.value.data, key, value)
    ensures r.components == Updated(st.components, st.selected.value.id, r.selected.value.data)
  {
    var c := st.selected.value;
    var d := UpdateData(c.data, key, value);
    Session(Updated(st.components, c.id, d), RefreshedSelection(st.selected, c.id, d))
  }

  /** With the copy refreshed, successive edits accumulate on every listed component with that id. */
  lemma EditsAccumulate(st: Session, k1: string, v1: Value, k2: string, v2: Value)
    requires st.selected.Some? && Current(st.components, st.selected)
    ensures var r := Edit(Edit(st, k1, v1), k2, v2);
      Current(r.components, r.selected)
      && r.selected.value.data == UpdateData(UpdateData(st.selected.value.data, k1, v1), k2, v2)
      && forall i :: 0 <= i < |r.components| && r.components[i].id == st.selected.value.id ==>
           r.components[i].data == r.selected.value.data
  {
    var c := st.selected.value;
    var d1 := UpdateData(c.data, k1, v1);
    CurrentAfterRefreshedUpdate(st.components, st.selected, c.id, d1);
    var st1 := Edit(st, k1, v1);
    var d2 := UpdateData(d1, k2, v2);
    CurrentAfterRefreshedUpdate(st1.components, st1.selected, c.id, d2);
  }
}
