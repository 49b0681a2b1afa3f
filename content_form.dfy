/**
 * The admin content-page form: the initial state, the active language, the
 * per-language translation edit, the remote slug check, and the validation
 * that gates saving.
 */
module ContentForm {
  import opened Base
  import opened Strings
  import opened RichText
  import opened LanguageData

  datatype ContentTranslation = ContentTranslation(languageId: string, title: string, content: Option<Node>)

  datatype ContentData = ContentData(slug: string, published: bool, translations: seq<ContentTranslation>)

  /** `{ type: 'doc', content: [{ type: 'paragraph', content: [] }] }`. */
  const EmptyDoc := Node("doc", None, true, [Node("paragraph", None, true, [])])

  /**
   * The form's first state. Given data is taken as it is (its slug and flag
   * pass through `|| ''` and `|| false` unchanged, and an array is always
   * truthy); otherwise there is one empty translation per language.
   */
  function InitialForm(initial: Option<ContentData>, langs: seq<Language>): (d: ContentData)
    ensures initial.Some? ==> d == initial.value
    ensures initial.None? ==> d.slug == "" && !d.published && |d.translations| == |langs|
    ensures initial.None? ==> forall i :: 0 <= i < |langs| ==>
      d.translations[i] == ContentTranslation(langs[i].id, "", Some(EmptyDoc))
  {
    if initial.Some? then initial.value
    else ContentData("", false, seq(|langs|, i requires 0 <= i < |langs| => ContentTranslation(langs[i].id, "", Some(EmptyDoc))))
  }

  /** Without given data, every language finds its own translation in the new form. */
  lemma InitialCoversLanguages(langs: seq<Language>, i: nat)
    requires i < |langs|
    ensures exists j :: (0 <= j < |InitialForm(None, langs).translations| &&
      InitialForm(None, langs).translations[j].languageId == langs[i].id)
  {
    assert InitialForm(None, langs).translations[i].languageId == langs[i].id;
  }

  /** `languages.find(l => l.isDefault)?.code || languages[0]?.code || 'nl'`. */
  function ActiveLanguageFor(langs: seq<Language>): (code: string)
    ensures code != ""
    ensures FindDefault(langs).Some? && FindDefault(langs).value.code != "" ==> code == FindDefault(langs).value.code
    ensures (FindDefault(langs).None? || FindDefault(langs).value.code == "") && langs != [] && langs[0].code != "" ==>
      code == langs[0].code
    ensures (FindDefault(langs).None? || FindDefault(langs).value.code == "") && (langs == [] || langs[0].code == "") ==>
      code == "nl"
  {
    var d := FindDefault(langs);
    if d.Some? && d.value.code != "" then d.value.code
    else if langs != [] && langs[0].code != "" then langs[0].code
    else "nl"
  }

  /** The chosen code belongs to one of the languages, unless it is the fallback `'nl'`. */
  lemma ActiveLanguageIsKnown(langs: seq<Language>)
    ensures ActiveLanguageFor(langs) == "nl" || exists i :: 0 <= i < |langs| && langs[i].code == ActiveLanguageFor(langs)
  {
    FindDefaultIsFirst(langs);
  }

  /** A translation counts as the active one when its language's code is the active code. */
  predicate IsActive(langs: seq<Language>, active: string, t: ContentTranslation) {
    var l := FindById(langs, t.languageId);
    l.Some? && l.value.code == active
  }

  /** `currentTranslation`: the first translation in the active language. */
  function CurrentTranslation(ts: seq<ContentTranslation>, langs: seq<Language>, active: string): (r: Option<ContentTranslation>)
    ensures r.None? <==> forall i :: 0 <= i < |ts| ==> !IsActive(langs, active, ts[i])
    ensures r.Some? ==> r.value in ts && IsActive(langs, active, r.value)
  {
    if ts == [] then None
    else if IsActive(langs, active, ts[0]) then Some(ts[0])
    else CurrentTranslation(ts[1..], langs, active)
  }

  /** The translation chosen is the first one in the active language. */
  lemma {:induction false} CurrentTranslationIsFirst(ts: seq<ContentTranslation>, langs: seq<Language>, active: string)
    ensures CurrentTranslation(ts, langs, active).Some? ==>
      exists i :: 0 <= i < |ts| && ts[i] == CurrentTranslation(ts, langs, active).value
        && forall j :: 0 <= j < i ==> !IsActive(langs, active, ts[j])
  {
    if ts != [] && !IsActive(langs, active, ts[0]) {
      var rest := ts[1..];
      CurrentTranslationIsFirst(rest, langs, active);
      if CurrentTranslation(rest, langs, active).Some? {
        var i :| 0 <= i < |rest| && rest[i] == CurrentTranslation(rest, langs, active).value
          && forall j :: 0 <= j < i ==> !IsActive(langs, active, rest[j]);
        assert ts[i + 1] == rest[i];
        assert forall j :: 0 < j <= i ==> ts[j] == rest[j - 1];
      }
    }
  }

  /** A field of a translation and its new value. */
  datatype Change = SetTitle(title: string) | SetContent(content: Node)

  function Apply(t: ContentTranslation, c: Change): (r: ContentTranslation)
    ensures r.languageId == t.languageId
    ensures r.title == (if c.SetTitle? then c.title else t.title)
    ensures r.content == (if c.SetContent? then Some(c.content) else t.content)
  {
    match c
    case SetTitle(x) => t.(title := x)
    case SetContent(x) => t.(content := Some(x))
  }

  /**
   * `updateTranslation(field, value)`: nothing without a current
   * translation; otherwise every translation in the active language gets the
   * new value.
   */
  function UpdateTranslation(d: ContentData, langs: seq<Language>, active: string, c: Change): (r: ContentData)
    ensures r.slug == d.slug && r.published == d.published && |r.translations| == |d.translations|
    ensures CurrentTranslation(d.translations, langs, active).None? ==> r == d
    ensures forall i :: 0 <= i < |d.translations| ==>
      r.translations[i] == if IsActive(langs, active, d.translations[i]) then Apply(d.translations[i], c) else d.translations[i]
  {
    if CurrentTranslation(d.translations, langs, active).None? then d
    else d.(translations := seq(|d.translations|, i requires 0 <= i < |d.translations| =>
      if IsActive(langs, active, d.translations[i]) then Apply(d.translations[i], c) else d.translations[i]))
  }

  /** After a title edit, the current translation carries the new title. */
  lemma UpdateThenCurrent(d: ContentData, langs: seq<Language>, active: string, title: string)
    requires CurrentTranslation(d.translations, langs, active).Some?
    ensures CurrentTranslation(UpdateTranslation(d, langs, active, SetTitle(title)).translations, langs, active).Some?
    ensures CurrentTranslation(UpdateTranslation(d, langs, active, SetTitle(title)).translations, langs, active).value.title == title
  {
    var ts := d.translations;
    var rs := UpdateTranslation(d, langs, active, SetTitle(title)).translations;
    var i :| 0 <= i < |ts| && IsActive(langs, active, ts[i]);
    assert IsActive(langs, active, rs[i]);
    var r := CurrentTranslation(rs, langs, active).value;
    var j :| 0 <= j < |rs| && rs[j] == r;
    assert IsActive(langs, active, ts[j]);
  }

  /** The answer of `/api/content/validate-slug`. */
  datatype SlugValidation = SlugValidation(isValid: bool, isAvailable: bool, error: Option<string>, suggestions: Option<seq<string>>)

  /** The slug's one message: required, then the format, then availability. */
  function SlugError(slug: string, isValidSlug: string -> bool, v: Option<SlugValidation>): (e: Option<string>)
    ensures slug == "" ==> e == Some("Slug is required")
    ensures slug != "" && !isValidSlug(slug) ==> e == Some("Invalid slug format")
    ensures slug != "" && isValidSlug(slug) && v.Some? && !v.value.isAvailable ==> e == Some("Slug is not available")
    ensures e.None? <==> slug != "" && isValidSlug(slug) && (v.None? || v.value.isAvailable)
  {
    if slug == "" then Some("Slug is required")
    else if !isValidSlug(slug) then Some("Invalid slug format")
    else if v.Some? && !v.value.isAvailable then Some("Slug is not available")
    else None
  }

  function TitleKey(code: string): (k: string)
    ensures "translation_" <= k
  {
    "translation_" + code + "_title"
  }

  function ContentKey(code: string): (k: string)
    ensures "translation_" <= k && k != TitleKey(code)
  {
    "translation_" + code + "_content"
  }

  /** What a translation must have: nothing, when its language is not known. */
  predicate TranslationOk(langs: seq<Language>, plain: Node -> string, t: ContentTranslation) {
    FindById(langs, t.languageId).None? ||
    (Trim(t.title) != "" && t.content.Some? && Trim(plain(t.content.value)) != "")
  }

  /** One pass of the `forEach`: the messages for one translation added to `e`. */
  function AddErrors(e: map<string, string>, langs: seq<Language>, plain: Node -> string, t: ContentTranslation): (r: map<string, string>)
    ensures e.Keys <= r.Keys
    ensures TranslationOk(langs, plain, t) ==> r == e
    ensures !TranslationOk(langs, plain, t) ==> r != map[]
    ensures FindById(langs, t.languageId).Some? && Trim(t.title) == "" ==>
      var l := FindById(langs, t.languageId).value;
      TitleKey(l.code) in r && r[TitleKey(l.code)] == "Title is required for " + l.name
    ensures FindById(langs, t.languageId).Some? && (t.content.None? || Trim(plain(t.content.value)) == "") ==>
      var l := FindById(langs, t.languageId).value;
      ContentKey(l.code) in r && r[ContentKey(l.code)] == "Content is required for " + l.name
    ensures FindById(langs, t.languageId).Some? ==>
      var l := FindById(langs, t.languageId).value;
      r.Keys <= e.Keys + {TitleKey(l.code), ContentKey(l.code)} &&
      forall k :: k in e && k != TitleKey(l.code) && k != ContentKey(l.code) ==> k in r && r[k] == e[k]
  {
    var lang := FindById(langs, t.languageId);
    if lang.None? then e
    else
      var l := lang.value;
      PutMessages(e, TitleKey(l.code), "Title is required for " + l.name, Trim(t.title) == "",
        ContentKey(l.code), "Content is required for " + l.name, t.content.None? || Trim(plain(t.content.value)) == "")
  }

  /** `e` with message `tv` at `tk` when `tb` holds, then `cv` at `ck` when `cb` holds. */
  function PutMessages(e: map<string, string>, tk: string, tv: string, tb: bool, ck: string, cv: string, cb: bool): (r: map<string, string>)
    requires tk != ck
    ensures e.Keys <= r.Keys && r.Keys <= e.Keys + {tk, ck}
    ensures !tb && !cb ==> r == e
    ensures tb || cb ==> r != map[]
    ensures tb ==> tk in r && r[tk] == tv
    ensures cb ==> ck in r && r[ck] == cv
    ensures forall k :: k in e && k != tk && k != ck ==> k in r && r[k] == e[k]
  {
    var e1 := if tb then e[tk := tv] else e;
    if cb then
      var r := e1[ck := cv];
      assert ck in r;
      r
    else
      e1
  }

  /** The messages for the translations `ts`, in order, on top of `e`. */
  function TranslationErrors(e: map<string, string>, langs: seq<Language>, plain: Node -> string, ts: seq<ContentTranslation>): (r: map<string, string>)
    ensures e.Keys <= r.Keys
    ensures forall k :: k in r && k !in e ==> "translation_" <= k
    ensures forall k :: k in e && !("translation_" <= k) ==> r[k] == e[k]
  {
    if ts == [] then e
    else AddErrors(TranslationErrors(e, langs, plain, ts[..|ts| - 1]), langs, plain, ts[|ts| - 1])
  }

  /** No message at all exactly when `e` was empty and every translation has what it needs. */
  lemma {:induction false} TranslationErrorsEmpty(e: map<string, string>, langs: seq<Language>, plain: Node -> string, ts: seq<ContentTranslation>)
    ensures TranslationErrors(e, langs, plain, ts) == map[] <==>
      e == map[] && forall i :: 0 <= i < |ts| ==> TranslationOk(langs, plain, ts[i])
  {
    if ts != [] {
      var init := ts[..|ts| - 1];
      var last := ts[|ts| - 1];
      var prev := TranslationErrors(e, langs, plain, init);
      TranslationErrorsEmpty(e, langs, plain, init);
      AddErrorsEmpty(prev, langs, plain, last);
      assert TranslationErrors(e, langs, plain, ts) == AddErrors(prev, langs, plain, last);
      assert (forall i :: 0 <= i < |ts| ==> TranslationOk(langs, plain, ts[i])) <==>
        (forall i :: 0 <= i < |init| ==> TranslationOk(langs, plain, init[i])) && TranslationOk(langs, plain, last) by {
        assert forall i :: 0 <= i < |init| ==> init[i] == ts[i];
      }
    }
  }

  /** One pass leaves no message exactly when there was none and the translation is complete. */
  lemma AddErrorsEmpty(e: map<string, string>, langs: seq<Language>, plain: Node -> string, t: ContentTranslation)
    ensures AddErrors(e, langs, plain, t) == map[] <==> e == map[] && TranslationOk(langs, plain, t)
  {
    if e != map[] {
      var k :| k in e;
      assert k in AddErrors(e, langs, plain, t);
    }
  }

  /** `validateForm`'s `errors` record. */
  function FormErrors(d: ContentData, langs: seq<Language>, isValidSlug: string -> bool, plain: Node -> string,
                      v: Option<SlugValidation>): (r: map<string, string>)
    ensures SlugError(d.slug, isValidSlug, v).Some? ==> "slug" in r && r["slug"] == SlugError(d.slug, isValidSlug, v).value
    ensures forall k :: k in r && k != "slug" ==> "translation_" <= k
    ensures SlugError(d.slug, isValidSlug, v).None? ==> "slug" !in r
  {
    var s := SlugError(d.slug, isValidSlug, v);
    TranslationErrors(if s.Some? then map["slug" := s.value] else map[], langs, plain, d.translations)
  }

  /** The form is valid exactly when the slug passes and every known translation has a title and content. */
  lemma FormErrorsEmptyIff(d: ContentData, langs: seq<Language>, isValidSlug: string -> bool, plain: Node -> string,
                           v: Option<SlugValidation>)
    ensures FormErrors(d, langs, isValidSlug, plain, v) == map[] <==>
      SlugError(d.slug, isValidSlug, v).None? && forall i :: 0 <= i < |d.translations| ==> TranslationOk(langs, plain, d.translations[i])
  {
    var s := SlugError(d.slug, isValidSlug, v);
    var e := if s.Some? then map["slug" := s.value] else map[];
    TranslationErrorsEmpty(e, langs, plain, d.translations);
    if s.Some? {
      assert "slug" in e;
    }
  }

  /** `slugValidation.suggestions.slice(0, 3)`, shown only when there are some. */
  function ShownSuggestions(v: Option<SlugValidation>): (r: seq<string>)
    ensures |r| <= 3
    ensures v.Some? && v.value.suggestions.Some? ==> r <= v.value.suggestions.value
    ensures v.Some? && v.value.suggestions.Some? && |v.value.suggestions.value| <= 3 ==> r == v.value.suggestions.value
    ensures v.Some? && v.value.suggestions.Some? && |v.value.suggestions.value| > 3 ==> r == v.value.suggestions.value[..3]
    ensures v.None? || v.value.suggestions.None? ==> r == []
  {
    if v.Some? && v.value.suggestions.Some? then
      var s := v.value.suggestions.value;
      if |s| <= 3 then s else s[..3]
    else []
  }

  /** The remote check is skipped, and its answer cleared, for a slug shorter than two characters. */
  predicate SkipsSlugCheck(slug: string) {
    slug == "" || |slug| < 2
  }

  datatype Mode = Create | Edit

  /** The body of the slug check: `excludeId` is only sent when editing. */
  datatype SlugRequest = SlugRequest(slug: string, excludeId: Option<string>)

  class Editor {
    const languages: seq<Language>
    const mode: Mode
    const initialSlug: Option<string>
    var form: ContentData
    var activeLanguage: string
    var validationErrors: map<string, string>
    var slugValidation: Option<SlugValidation>

    constructor (initial: Option<ContentData>, langs: seq<Language>, m: Mode)
      ensures languages == langs && mode == m
      ensures initialSlug == (if initial.Some? then Some(initial.value.slug) else None)
      ensures form == InitialForm(initial, langs) && activeLanguage == ActiveLanguageFor(langs)
      ensures validationErrors == map[] && slugValidation.None?
    {
      languages := langs;
      mode := m;
      initialSlug := if initial.Some? then Some(initial.value.slug) else None;
      form := InitialForm(initial, langs);
      activeLanguage := ActiveLanguageFor(langs);
      validationErrors := map[];
      slugValidation := None;
    }

    method UpdateSlug(slug: string)
      modifies this
      ensures form == old(form).(slug := slug)
      ensures activeLanguage == old(activeLanguage) && validationErrors == old(validationErrors)
      ensures slugValidation == old(slugValidation)
    {
      form := form.(slug := slug);
    }

    method SetActiveLanguage(code: string)
      modifies this
      ensures activeLanguage == code
      ensures form == old(form) && validationErrors == old(validationErrors) && slugValidation == old(slugValidation)
    {
      activeLanguage := code;
    }

    method UpdateTranslationField(c: Change)
      modifies this
      ensures form == UpdateTranslation(old(form), languages, activeLanguage, c)
      ensures activeLanguage == old(activeLanguage) && validationErrors == old(validationErrors)
      ensures slugValidation == old(slugValidation)
    {
      form := UpdateTranslation(form, languages, activeLanguage, c);
    }

    /** `generateSlugFromTitle`, with the slug generator as a parameter. */
    method GenerateSlugFromTitle(generate: string -> string)
      modifies this
      ensures var cur := CurrentTranslation(old(form).translations, languages, activeLanguage);
        form == if cur.Some? && cur.value.title != "" then old(form).(slug := generate(cur.value.title)) else old(form)
      ensures activeLanguage == old(activeLanguage) && validationErrors == old(validationErrors)
      ensures slugValidation == old(slugValidation)
    {
      var cur := CurrentTranslation(form.translations, languages, activeLanguage);
      if cur.Some? && cur.value.title != "" {
        form := form.(slug := generate(cur.value.title));
      }
    }

    /**
     * The slug check once its delay has passed: `request` is what was sent,
     * and `answer` the parsed body of an OK response.
     */
    method CheckSlug(answer: Option<SlugValidation>) returns (request: Option<SlugRequest>)
      modifies this
      ensures SkipsSlugCheck(form.slug) ==> request.None? && slugValidation.None?
      ensures !SkipsSlugCheck(form.slug) ==>
        request == Some(SlugRequest(form.slug, if mode == Edit then initialSlug else None))
      ensures !SkipsSlugCheck(form.slug) ==> slugValidation == if answer.Some? then answer else old(slugValidation)
      ensures form == old(form) && activeLanguage == old(activeLanguage) && validationErrors == old(validationErrors)
    {
      if SkipsSlugCheck(form.slug) {
        slugValidation := None;
        return None;
      }
      request := Some(SlugRequest(form.slug, if mode == Edit then initialSlug else None));
      if answer.Some? {
        slugValidation := answer;
      }
    }

    /** The `forEach` over the translations, adding their messages to `start`. */
    static method CollectErrors(start: map<string, string>, langs: seq<Language>, plain: Node -> string,
                                ts: seq<ContentTranslation>) returns (errors: map<string, string>)
      ensures errors == TranslationErrors(start, langs, plain, ts)
    {
      errors := start;
      var i := 0;
      while i < |ts|
        invariant 0 <= i <= |ts|
        invariant errors == TranslationErrors(start, langs, plain, ts[..i])
      {
        assert ts[..i + 1][..i] == ts[..i];
        errors := AddErrors(errors, langs, plain, ts[i]);
        i := i + 1;
      }
      assert ts[..|ts|] == ts;
    }

    /** `validateForm`, with the slug-format test and the plain-text extraction as parameters. */
    method ValidateForm(isValidSlug: string -> bool, plain: Node -> string) returns (valid: bool)
      modifies this
      ensures validationErrors == FormErrors(form, languages, isValidSlug, plain, slugValidation)
      ensures valid <==> validationErrors == map[]
      ensures form == old(form) && activeLanguage == old(activeLanguage) && slugValidation == old(slugValidation)
    {
      var start: map<string, string> := map[];
      var s := SlugError(form.slug, isValidSlug, slugValidation);
      if s.Some? {
        start := start["slug" := s.value];
      }
      var errors := CollectErrors(start, languages, plain, form.translations);
      validationErrors := errors;
      valid := |errors| == 0;
    }

    /**
     * `handlePreview`: `onPreview` receives the form and the active
     * language when the page passed one; `hasPreview` says whether it did.
     */
    method HandlePreview(hasPreview: bool) returns (previewed: Option<(ContentData, string)>)
      ensures previewed.Some? <==> hasPreview
      ensures previewed.Some? ==> previewed.value == (form, activeLanguage)
    {
      previewed := if hasPreview then Some((form, activeLanguage)) else None;
    }

    /** `handleSave`: `saved` is what `onSave` received, and nothing when the form is invalid. */
    method HandleSave(isValidSlug: string -> bool, plain: Node -> string) returns (saved: Option<ContentData>)
      modifies this
      ensures saved.Some? <==> FormErrors(form, languages, isValidSlug, plain, slugValidation) == map[]
      ensures saved.Some? ==> saved.value == form
      ensures validationErrors == FormErrors(form, languages, isValidSlug, plain, slugValidation)
      ensures form == old(form) && activeLanguage == old(activeLanguage) && slugValidation == old(slugValidation)
    {
      var valid := ValidateForm(isValidSlug, plain);
      saved := if valid then Some(form) else None;
    }
  }
}
