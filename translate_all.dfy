/**
 * Bulk translation of projects: for every requested project, the
 * default-language translation is sent to a translation provider, the
 * answers are merged with the existing translations, and the project is
 * saved. Each project counts once, as a success or as a failure with a
 * message.
 */
module TranslateAll {
  import opened Base
  import opened Strings
  import opened LangText
  import opened RichText
  import opened LanguageData

  datatype Translation = Translation(languageId: string, title: string, description: Description, materials: seq<string>)

  datatype Project = Project(id: string, translations: seq<Translation>)

  /**
   * `TranslationAPIService.translateText(text, from, targets)`: the answer
   * keyed by language code, or `None` when the call throws.
   */
  type Provider = (string, string, seq<string>) -> Option<LangMap>

  /** `ContentValidator.extractPlainText`, which is not part of this model. */
  type PlainText = Description -> string

  /** What `ProjectService.updateProject` throws for a project and its new translations, if anything. */
  type SaveError = (string, seq<Translation>) -> Option<string>

  /** A value thrown inside the route: an `AuthError`, another `Error`, or something that is not an `Error`. */
  datatype Thrown =
    | AuthFailure(status: int, message: string)
    | ErrorThrown(message: string)
    | NonErrorThrown

  /** What `ProjectService.getProjectById` throws for a project id, if anything. */
  type LookupFault = string -> Option<Thrown>

  /** The message the per-project `catch` records for a thrown value. */
  function CaughtMessage(t: Thrown): (m: string)
    ensures t.NonErrorThrown? ==> m == "Unknown error"
    ensures !t.NonErrorThrown? ==> m == t.message
  {
    match t
    case NonErrorThrown => "Unknown error"
    case AuthFailure(_, msg) => msg
    case ErrorThrown(msg) => msg
  }

  /** `translations.find(t => t.languageId === languageId)`. */
  function FindTranslation(ts: seq<Translation>, languageId: string): (r: Option<Translation>)
    ensures r.None? <==> forall i :: 0 <= i < |ts| ==> ts[i].languageId != languageId
    ensures r.Some? ==> r.value in ts && r.value.languageId == languageId
  {
    if ts == [] then None
    else if ts[0].languageId == languageId then Some(ts[0])
    else FindTranslation(ts[1..], languageId)
  }

  /** The translation found is the first one in that language. */
  lemma {:induction false} FindTranslationIsFirst(ts: seq<Translation>, languageId: string)
    ensures FindTranslation(ts, languageId).Some? ==>
      exists i :: 0 <= i < |ts| && ts[i] == FindTranslation(ts, languageId).value
        && forall j :: 0 <= j < i ==> ts[j].languageId != languageId
  {
    if ts != [] && ts[0].languageId != languageId {
      var rest := ts[1..];
      FindTranslationIsFirst(rest, languageId);
      if FindTranslation(rest, languageId).Some? {
        var i :| 0 <= i < |rest| && rest[i] == FindTranslation(rest, languageId).value
          && forall j :: 0 <= j < i ==> rest[j].languageId != languageId;
        assert ts[i + 1] == rest[i];
        assert forall j :: 0 < j <= i ==> ts[j] == rest[j - 1];
      }
    }
  }

  /** `languages.filter(l => !l.isDefault && l.isActive).map(l => l.code)`. */
  function TargetCodes(languages: seq<Language>): (codes: seq<string>)
    ensures forall c :: c in codes <==>
      exists i :: 0 <= i < |languages| && !languages[i].isDefault && languages[i].isActive && languages[i].code == c
  {
    if languages == [] then []
    else
      var rest := TargetCodes(languages[1..]);
      assert forall i :: 0 < i < |languages| ==> languages[i] == languages[1..][i - 1];
      if !languages[0].isDefault && languages[0].isActive then [languages[0].code] + rest else rest
  }

  /** `languages.filter(l => targetLangs.includes(l.code))`, in registry order. */
  function TargetLanguages(languages: seq<Language>, targets: seq<string>): (r: seq<Language>)
    ensures forall l :: l in r <==> l in languages && l.code in targets
    decreases |languages|
  {
    if languages == [] then []
    else
      var rest := TargetLanguages(languages[..|languages| - 1], targets);
      var l := languages[|languages| - 1];
      assert languages == languages[..|languages| - 1] + [l];
      if l.code in targets then rest + [l] else rest
  }

  /** The codes of a registry are gathered language by language, in registry order. */
  lemma {:induction false} TargetCodesAppend(a: seq<Language>, b: seq<Language>)
    ensures TargetCodes(a + b) == TargetCodes(a) + TargetCodes(b)
  {
    if a == [] {
      assert a + b == b;
    } else {
      var c := a + b;
      assert c[0] == a[0];
      assert c[1..] == a[1..] + b;
      TargetCodesAppend(a[1..], b);
      var pick := if !a[0].isDefault && a[0].isActive then [a[0].code] else [];
      assert TargetCodes(c) == pick + TargetCodes(a[1..] + b);
      assert TargetCodes(a) == pick + TargetCodes(a[1..]);
    }
  }

  /** A one-language registry yields its code exactly when the language is an active non-default one. */
  lemma TargetCodesOne(l: Language)
    ensures TargetCodes([l]) == if !l.isDefault && l.isActive then [l.code] else []
  {
    assert [l][1..] == [];
  }

  /** The target languages of a registry are picked language by language, in registry order. */
  lemma {:induction false} TargetLanguagesAppend(a: seq<Language>, b: seq<Language>, targets: seq<string>)
    ensures TargetLanguages(a + b, targets) == TargetLanguages(a, targets) + TargetLanguages(b, targets)
    decreases |b|
  {
    if b == [] {
      assert a + b == a;
    } else {
      var c := a + b;
      var l := b[|b| - 1];
      var b' := b[..|b| - 1];
      assert c[..|c| - 1] == a + b';
      assert c[|c| - 1] == l;
      TargetLanguagesAppend(a, b', targets);
      var pick := if l.code in targets then [l] else [];
      assert TargetLanguages(c, targets) == TargetLanguages(a + b', targets) + pick;
      assert TargetLanguages(b, targets) == TargetLanguages(b', targets) + pick;
    }
  }

  /** A one-language registry yields that language exactly when its code is a target. */
  lemma TargetLanguagesOne(l: Language, targets: seq<string>)
    ensures TargetLanguages([l], targets) == if l.code in targets then [l] else []
  {
    assert [l][..0] == [];
  }

  /** The document rebuilt from one translated description, if it has a non-blank line. */
  function DocFor(text: string): (r: Option<Node>)
    ensures r.Some? <==> Trim(text) != ""
    ensures r.Some? ==> r.value == DocFromLines(NonBlank(Split(text, '\n')))
  {
    NonBlankLinesOfText(text);
    if text != "" && Trim(text) != "" then
      var lines := NonBlank(Split(text, '\n'));
      if |lines| > 0 then Some(DocFromLines(lines)) else None
    else None
  }

  /** A rebuilt description shows the translation's non-blank lines, in order, one per line. */
  lemma DocForText(text: string)
    requires Trim(text) != ""
    ensures DescriptionText(DocDescription(DocFor(text).value)) == Join(NonBlank(Split(text, '\n')), "\n")
  {
    DocFromLinesText(NonBlank(Split(text, '\n')));
  }

  /** `descriptionTranslations` after the `for-of` over the answer's entries. */
  function DescriptionDocs(resp: LangMap): (r: Assoc<Node>)
    ensures |r| <= |resp|
    decreases |resp|
  {
    if resp == [] then []
    else
      var acc := DescriptionDocs(resp[..|resp| - 1]);
      var e := resp[|resp| - 1];
      match DocFor(e.1)
      case Some(d) => Set(acc, e.0, d)
      case None => acc
  }

  /** `materialsTranslations` after the `for-of` over the answer's entries. */
  function MaterialLists(resp: LangMap): (r: Assoc<seq<string>>)
    ensures |r| <= |resp|
    ensures forall code :: Lookup(r, code).Some? ==> Lookup(resp, code).Some?
    decreases |resp|
  {
    if resp == [] then []
    else
      var init := resp[..|resp| - 1];
      var acc := MaterialLists(init);
      var e := resp[|resp| - 1];
      assert forall i :: 0 <= i < |init| ==> resp[i] == init[i];
      if e.1 != "" then Set(acc, e.0, ParseList(e.1, ',')) else acc
  }

  /** Each language's rebuilt document is the one rebuilt from that language's answer. */
  lemma {:induction false} DescriptionDocsLookup(resp: LangMap, code: string)
    requires UniqueKeys(resp)
    ensures Lookup(DescriptionDocs(resp), code) ==
      match Lookup(resp, code) case Some(t) => DocFor(t) case None => None
  {
    if resp != [] {
      var init := resp[..|resp| - 1];
      var e := resp[|resp| - 1];
      assert resp == init + [e];
      DescriptionDocsLookup(init, code);
      LookupSnoc(init, e.0, e.1, code);
      if e.0 == code {
        assert Lookup(init, code).None?;
      }
    }
  }

  /** Each language's material list is that language's answer parsed as a comma list. */
  lemma {:induction false} MaterialListsLookup(resp: LangMap, code: string)
    requires UniqueKeys(resp)
    ensures Lookup(MaterialLists(resp), code) ==
      match Lookup(resp, code)
      case Some(t) => if t != "" then Some(ParseList(t, ',')) else None
      case None => None
  {
    if resp != [] {
      var init := resp[..|resp| - 1];
      var e := resp[|resp| - 1];
      assert resp == init + [e];
      MaterialListsLookup(init, code);
      LookupSnoc(init, e.0, e.1, code);
      if e.0 == code {
        assert Lookup(init, code).None?;
      }
    }
  }

  /**
   * A provider that answers a language with the materials text unchanged
   * gives back the default-language list for that language, when its items
   * are non-empty, trimmed and free of commas.
   */
  lemma MaterialsRoundTrip(materials: seq<string>, code: string)
    requires |materials| > 0
    requires forall k :: 0 <= k < |materials| ==>
      materials[k] != "" && IsTrimmed(materials[k]) && ',' !in materials[k]
    ensures Lookup(MaterialLists([(code, Join(materials, ", "))]), code) == Some(materials)
  {
    ParseListOfJoin(materials);
    assert Join(materials, ", ") != "" by {
      assert |materials[0]| > 0;
      if |materials| > 1 {
        assert Join(materials, ", ") == materials[0] + ", " + Join(materials[1..], ", ");
      }
    }
    assert [(code, Join(materials, ", "))][..0] == [];
  }

  lemma DescriptionDocsSnoc(resp: LangMap, i: nat)
    requires i < |resp|
    ensures DescriptionDocs(resp[..i + 1]) ==
      match DocFor(resp[i].1)
      case Some(d) => Set(DescriptionDocs(resp[..i]), resp[i].0, d)
      case None => DescriptionDocs(resp[..i])
  {
    assert resp[..i + 1][..i] == resp[..i];
    assert resp[..i + 1][i] == resp[i];
  }

  lemma MaterialListsSnoc(resp: LangMap, i: nat)
    requires i < |resp|
    ensures MaterialLists(resp[..i + 1]) ==
      if resp[i].1 != "" then Set(MaterialLists(resp[..i]), resp[i].0, ParseList(resp[i].1, ','))
      else MaterialLists(resp[..i])
  {
    assert resp[..i + 1][..i] == resp[..i];
    assert resp[..i + 1][i] == resp[i];
  }

  /** The loop that rebuilds one document per translated description. */
  method BuildDescriptionDocs(resp: LangMap) returns (docs: Assoc<Node>)
    ensures docs == DescriptionDocs(resp)
  {
    docs := [];
    var i := 0;
    while i < |resp|
      invariant 0 <= i <= |resp|
      invariant docs == DescriptionDocs(resp[..i])
    {
      DescriptionDocsSnoc(resp, i);
      match DocFor(resp[i].1) {
        case Some(d) => docs := Set(docs, resp[i].0, d);
        case None =>
      }
      i := i + 1;
    }
    assert resp[..i] == resp;
  }

  /** The loop that parses one material list per translated language. */
  method BuildMaterialLists(resp: LangMap) returns (lists: Assoc<seq<string>>)
    ensures lists == MaterialLists(resp)
  {
    lists := [];
    var i := 0;
    while i < |resp|
      invariant 0 <= i <= |resp|
      invariant lists == MaterialLists(resp[..i])
    {
      var e := resp[i];
      MaterialListsSnoc(resp, i);
      if e.1 != "" {
        lists := Set(lists, e.0, ParseList(e.1, ','));
      }
      i := i + 1;
    }
    assert resp[..i] == resp;
  }

  /** The provider's answers for a default-language translation, field by field. */
  datatype Fresh = Fresh(titles: LangMap, docs: Assoc<Node>, materials: Assoc<seq<string>>)

  /** The update for one target language: the translated text, else the existing one, else the default one. */
  function UpdateFor(lang: Language, existing: seq<Translation>, def: Translation, answers: Fresh): (u: Translation)
    ensures u.languageId == lang.id
    ensures Lookup(answers.titles, lang.code).Some? && Lookup(answers.titles, lang.code).value != ""
      ==> u.title == Lookup(answers.titles, lang.code).value
    ensures !(Lookup(answers.titles, lang.code).Some? && Lookup(answers.titles, lang.code).value != "") ==>
      u.title == (var t := FindTranslation(existing, lang.id); if t.Some? && t.value.title != "" then t.value.title else def.title)
    ensures Lookup(answers.docs, lang.code).Some? ==> u.description == DocDescription(Lookup(answers.docs, lang.code).value)
    ensures Lookup(answers.docs, lang.code).None? ==>
      u.description == (var t := FindTranslation(existing, lang.id);
        if t.Some? && DescriptionTruthy(t.value.description) then t.value.description else def.description)
    ensures Lookup(answers.materials, lang.code).Some? ==> u.materials == Lookup(answers.materials, lang.code).value
    ensures Lookup(answers.materials, lang.code).None? ==>
      u.materials == (var t := FindTranslation(existing, lang.id); if t.Some? then t.value.materials else def.materials)
  {
    var t := FindTranslation(existing, lang.id);
    var title :=
      match Lookup(answers.titles, lang.code)
      case Some(s) => if s != "" then s else if t.Some? && t.value.title != "" then t.value.title else def.title
      case None => if t.Some? && t.value.title != "" then t.value.title else def.title;
    var description :=
      match Lookup(answers.docs, lang.code)
      case Some(d) => DocDescription(d)
      case None => if t.Some? && DescriptionTruthy(t.value.description) then t.value.description else def.description;
    var materials :=
      match Lookup(answers.materials, lang.code)
      case Some(m) => m
      case None => if t.Some? then t.value.materials else def.materials;
    Translation(lang.id, title, description, materials)
  }

  function TargetUpdates(targets: seq<Language>, existing: seq<Translation>, def: Translation, answers: Fresh): (us: seq<Translation>)
    ensures |us| == |targets| && forall i :: 0 <= i < |us| ==> us[i] == UpdateFor(targets[i], existing, def, answers)
  {
    seq(|targets|, i requires 0 <= i < |targets| => UpdateFor(targets[i], existing, def, answers))
  }

  function LanguageIds(us: seq<Translation>): set<string> {
    set i | 0 <= i < |us| :: us[i].languageId
  }

  /** The existing translations whose language gets no update. */
  function Preserved(existing: seq<Translation>, ids: set<string>): (r: seq<Translation>)
    ensures forall t :: t in r <==> t in existing && t.languageId !in ids
    decreases |existing|
  {
    if existing == [] then []
    else
      var rest := Preserved(existing[..|existing| - 1], ids);
      var t := existing[|existing| - 1];
      assert existing == existing[..|existing| - 1] + [t];
      if t.languageId in ids then rest else rest + [t]
  }

  /** Keeping the untouched translations of a concatenation keeps those of each part, in order. */
  lemma {:induction false} PreservedAppend(a: seq<Translation>, b: seq<Translation>, ids: set<string>)
    ensures Preserved(a + b, ids) == Preserved(a, ids) + Preserved(b, ids)
    decreases |b|
  {
    if b == [] {
      assert a + b == a;
    } else {
      var last := b[|b| - 1];
      assert (a + b)[..|a + b| - 1] == a + b[..|b| - 1];
      assert (a + b)[|a + b| - 1] == last;
      PreservedAppend(a, b[..|b| - 1], ids);
    }
  }

  /** Each untouched translation is kept as often as it occurs; the others are dropped. */
  lemma {:induction false} PreservedCounts(existing: seq<Translation>, ids: set<string>, t: Translation)
    ensures multiset(Preserved(existing, ids))[t] == if t.languageId in ids then 0 else multiset(existing)[t]
    decreases |existing|
  {
    if existing != [] {
      var init := existing[..|existing| - 1];
      assert existing == init + [existing[|existing| - 1]];
      PreservedCounts(init, ids, t);
    }
  }

  /** The `updates` list sent to `updateProject`. */
  function Merge(targets: seq<Language>, existing: seq<Translation>, def: Translation, answers: Fresh): (r: seq<Translation>)
    ensures |targets| <= |r| && forall i :: 0 <= i < |targets| ==> r[i] == UpdateFor(targets[i], existing, def, answers)
    ensures forall i :: |targets| <= i < |r| ==>
      r[i] in existing && forall j :: 0 <= j < |targets| ==> r[i].languageId != targets[j].id
  {
    var us := TargetUpdates(targets, existing, def, answers);
    us + Preserved(existing, LanguageIds(us))
  }

  lemma TargetUpdatesSnoc(targets: seq<Language>, i: nat, existing: seq<Translation>, def: Translation, answers: Fresh)
    requires i < |targets|
    ensures TargetUpdates(targets[..i + 1], existing, def, answers)
         == TargetUpdates(targets[..i], existing, def, answers) + [UpdateFor(targets[i], existing, def, answers)]
  {
    var a := TargetUpdates(targets[..i + 1], existing, def, answers);
    var b := TargetUpdates(targets[..i], existing, def, answers) + [UpdateFor(targets[i], existing, def, answers)];
    assert |a| == |b|;
    forall k | 0 <= k < |a| ensures a[k] == b[k] {
      assert targets[..i + 1][k] == targets[k];
    }
  }

  /** The two loops that push the target updates and then the untouched translations. */
  method BuildUpdates(targets: seq<Language>, existing: seq<Translation>, def: Translation, answers: Fresh)
    returns (updates: seq<Translation>)
    ensures updates == Merge(targets, existing, def, answers)
  {
    updates := [];
    var i := 0;
    while i < |targets|
      invariant 0 <= i <= |targets|
      invariant updates == TargetUpdates(targets[..i], existing, def, answers)
    {
      TargetUpdatesSnoc(targets, i, existing, def, answers);
      updates := updates + [UpdateFor(targets[i], existing, def, answers)];
      i := i + 1;
    }
    assert targets[..i] == targets;
    var ids := LanguageIds(updates);
    var us := updates;
    var j := 0;
    while j < |existing|
      invariant 0 <= j <= |existing|
      invariant updates == us + Preserved(existing[..j], ids)
    {
      var t := existing[j];
      assert existing[..j + 1][..j] == existing[..j];
      if t.languageId !in ids {
        updates := updates + [t];
      }
      j := j + 1;
    }
    assert existing[..j] == existing;
  }

  predicate DistinctLanguageIds(ts: seq<Translation>) {
    forall i, j :: 0 <= i < j < |ts| ==> ts[i].languageId != ts[j].languageId
  }

  predicate DistinctIds(ls: seq<Language>) {
    forall i, j :: 0 <= i < j < |ls| ==> ls[i].id != ls[j].id
  }

  lemma {:induction false} PreservedDistinct(existing: seq<Translation>, ids: set<string>)
    requires DistinctLanguageIds(existing)
    ensures DistinctLanguageIds(Preserved(existing, ids))
    decreases |existing|
  {
    if existing != [] {
      var init := existing[..|existing| - 1];
      var t := existing[|existing| - 1];
      PreservedDistinct(init, ids);
      forall u | u in Preserved(init, ids) ensures u.languageId != t.languageId {
        var k :| 0 <= k < |init| && init[k] == u;
        assert existing[k] == u;
      }
    }
  }

  /** The target updates carry the targets' ids, in order. */
  lemma UpdatesDistinct(targets: seq<Language>, existing: seq<Translation>, def: Translation, answers: Fresh)
    requires DistinctIds(targets)
    ensures DistinctLanguageIds(TargetUpdates(targets, existing, def, answers))
  {
    var us := TargetUpdates(targets, existing, def, answers);
    forall i | 0 <= i < |us| ensures us[i].languageId == targets[i].id {
      assert us[i] == UpdateFor(targets[i], existing, def, answers);
    }
  }

  /** Two lists without repeats, whose languages do not meet, make one list without repeats. */
  lemma AppendDistinct(a: seq<Translation>, b: seq<Translation>)
    requires DistinctLanguageIds(a) && DistinctLanguageIds(b)
    requires forall t :: t in b ==> t.languageId !in LanguageIds(a)
    ensures DistinctLanguageIds(a + b)
  {
    var m := a + b;
    forall i, j | 0 <= i < j < |m| ensures m[i].languageId != m[j].languageId {
      if j >= |a| && i < |a| {
        assert m[j] == b[j - |a|];
        assert m[i].languageId in LanguageIds(a);
      } else if j >= |a| {
        assert m[i] == b[i - |a|] && m[j] == b[j - |a|];
      }
    }
  }

  /** No language appears twice among the translations a project is saved with. */
  lemma MergeDistinct(targets: seq<Language>, existing: seq<Translation>, def: Translation, answers: Fresh)
    requires DistinctIds(targets) && DistinctLanguageIds(existing)
    ensures DistinctLanguageIds(Merge(targets, existing, def, answers))
  {
    var us := TargetUpdates(targets, existing, def, answers);
    UpdatesDistinct(targets, existing, def, answers);
    PreservedDistinct(existing, LanguageIds(us));
    AppendDistinct(us, Preserved(existing, LanguageIds(us)));
  }

  /**
   * Every target language gets its update, and every existing translation
   * of another language is kept exactly as it was: nothing is lost.
   */
  lemma MergeKeepsEverything(targets: seq<Language>, existing: seq<Translation>, def: Translation, answers: Fresh)
    ensures forall l :: l in targets ==> UpdateFor(l, existing, def, answers) in Merge(targets, existing, def, answers)
    ensures forall t :: t in existing ==>
      (t in Merge(targets, existing, def, answers) || exists l :: l in targets && l.id == t.languageId)
  {
    var us := TargetUpdates(targets, existing, def, answers);
    forall l | l in targets ensures UpdateFor(l, existing, def, answers) in Merge(targets, existing, def, answers) {
      var i :| 0 <= i < |targets| && targets[i] == l;
      assert us[i] == UpdateFor(l, existing, def, answers);
    }
    forall t | t in existing && t.languageId in LanguageIds(us)
      ensures exists l :: l in targets && l.id == t.languageId
    {
      var i :| 0 <= i < |us| && us[i].languageId == t.languageId;
      assert targets[i] in targets;
    }
  }

  /** The request context once the target languages are known. */
  datatype Context = Context(defaultLang: Language, codes: seq<string>, targets: seq<Language>)

  /** The answers for `def`: each of the three provider calls is made only when there is something to send. */
  function FreshFor(def: Translation, ctx: Context, translate: Provider, plain: PlainText): (r: Fresh)
    ensures def.title == "" ==> r.titles == []
    ensures def.title != "" && translate(def.title, ctx.defaultLang.code, ctx.codes).Some? ==>
      r.titles == translate(def.title, ctx.defaultLang.code, ctx.codes).value
    ensures def.title != "" && translate(def.title, ctx.defaultLang.code, ctx.codes).None? ==> r.titles == []
    ensures !(DescriptionTruthy(def.description) && Trim(plain(def.description)) != "") ==> r.docs == []
    ensures DescriptionTruthy(def.description) && Trim(plain(def.description)) != "" ==>
      var answer := translate(plain(def.description), ctx.defaultLang.code, ctx.codes);
      (answer.Some? ==> r.docs == DescriptionDocs(answer.value)) && (answer.None? ==> r.docs == [])
    ensures def.materials == [] ==> r.materials == []
    ensures def.materials != [] ==>
      var answer := translate(Join(def.materials, ", "), ctx.defaultLang.code, ctx.codes);
      (answer.Some? ==> r.materials == MaterialLists(answer.value)) && (answer.None? ==> r.materials == [])
  {
    var from := ctx.defaultLang.code;
    var titles := if def.title != "" then translate(def.title, from, ctx.codes).GetOr([]) else [];
    var docs :=
      if DescriptionTruthy(def.description) && Trim(plain(def.description)) != "" then
        match translate(plain(def.description), from, ctx.codes)
        case Some(resp) => DescriptionDocs(resp)
        case None => []
      else [];
    var materials :=
      if |def.materials| > 0 then
        match translate(Join(def.materials, ", "), from, ctx.codes)
        case Some(resp) => MaterialLists(resp)
        case None => []
      else [];
    Fresh(titles, docs, materials)
  }

  datatype Outcome = Saved(translations: seq<Translation>) | Failed(error: string)

  /** What happens to one requested project. */
  function ProcessProject(projects: map<string, Project>, id: string, ctx: Context,
                          translate: Provider, plain: PlainText, saveError: SaveError, lookupFault: LookupFault): (o: Outcome)
    ensures lookupFault(id).Some? ==> o == Failed("Project " + id + ": " + CaughtMessage(lookupFault(id).value))
    ensures lookupFault(id).None? && id !in projects ==> o == Failed("Project " + id + " not found")
    ensures lookupFault(id).None? && id in projects && FindTranslation(projects[id].translations, ctx.defaultLang.id).None? ==>
      o == Failed("Project " + id + " has no default language translation")
    ensures o.Saved? ==> lookupFault(id).None? && id in projects && saveError(id, o.translations).None?
    ensures o.Saved? ==> FindTranslation(projects[id].translations, ctx.defaultLang.id).Some?
    ensures o.Saved? ==>
      var def := FindTranslation(projects[id].translations, ctx.defaultLang.id).value;
      o.translations == Merge(ctx.targets, projects[id].translations, def, FreshFor(def, ctx, translate, plain))
    ensures o.Failed? && lookupFault(id).None? && id in projects && FindTranslation(projects[id].translations, ctx.defaultLang.id).Some? ==>
      exists msg :: saveError(id, Merge(ctx.targets, projects[id].translations,
                                        FindTranslation(projects[id].translations, ctx.defaultLang.id).value,
                                        FreshFor(FindTranslation(projects[id].translations, ctx.defaultLang.id).value,
                                                 ctx, translate, plain))) == Some(msg)
                          && o.error == "Project " + id + ": " + msg
  {
    if lookupFault(id).Some? then Failed("Project " + id + ": " + CaughtMessage(lookupFault(id).value))
    else if id !in projects then Failed("Project " + id + " not found")
    else
      var p := projects[id];
      match FindTranslation(p.translations, ctx.defaultLang.id)
      case None => Failed("Project " + id + " has no default language translation")
      case Some(def) =>
        var updates := Merge(ctx.targets, p.translations, def, FreshFor(def, ctx, translate, plain));
        match saveError(id, updates)
        case Some(msg) => Failed("Project " + id + ": " + msg)
        case None => Saved(updates)
  }

  /** What a saved project keeps: one translation per language, and an update for every target language. */
  lemma SavedTranslations(projects: map<string, Project>, id: string, ctx: Context,
                          translate: Provider, plain: PlainText, saveError: SaveError, lookupFault: LookupFault)
    requires id in projects && DistinctIds(ctx.targets) && DistinctLanguageIds(projects[id].translations)
    ensures var o := ProcessProject(projects, id, ctx, translate, plain, saveError, lookupFault);
      o.Saved? ==> (DistinctLanguageIds(o.translations) &&
                    forall l :: l in ctx.targets ==> exists t :: t in o.translations && t.languageId == l.id)
  {
    var p := projects[id];
    var o := ProcessProject(projects, id, ctx, translate, plain, saveError, lookupFault);
    if o.Saved? {
      var def := FindTranslation(p.translations, ctx.defaultLang.id).value;
      var answers := FreshFor(def, ctx, translate, plain);
      MergeDistinct(ctx.targets, p.translations, def, answers);
      MergeKeepsEverything(ctx.targets, p.translations, def, answers);
      forall l | l in ctx.targets
        ensures exists t :: t in o.translations && t.languageId == l.id
      {
        var u := UpdateFor(l, p.translations, def, answers);
        assert u in o.translations && u.languageId == l.id;
      }
    }
  }

  /** The stored projects and the counters after some of the requested projects. */
  datatype Progress = Progress(projects: map<string, Project>, success: nat, errors: seq<string>)

  function Step(st: Progress, id: string, ctx: Context, translate: Provider, plain: PlainText, saveError: SaveError, lookupFault: LookupFault): (r: Progress)
    ensures r.projects.Keys == st.projects.Keys
    ensures r.success + |r.errors| == st.success + |st.errors| + 1
    ensures st.errors <= r.errors
  {
    match ProcessProject(st.projects, id, ctx, translate, plain, saveError, lookupFault)
    case Saved(ts) => Progress(st.projects[id := st.projects[id].(translations := ts)], st.success + 1, st.errors)
    case Failed(e) => Progress(st.projects, st.success, st.errors + [e])
  }

  /** The requested projects handled one after the other, each seeing the saves before it. */
  function Run(st: Progress, ids: seq<string>, ctx: Context, translate: Provider, plain: PlainText, saveError: SaveError, lookupFault: LookupFault): (r: Progress)
    ensures r.projects.Keys == st.projects.Keys
    ensures st.success <= r.success && st.errors <= r.errors
    decreases |ids|
  {
    if ids == [] then st
    else Step(Run(st, ids[..|ids| - 1], ctx, translate, plain, saveError, lookupFault), ids[|ids| - 1], ctx, translate, plain, saveError, lookupFault)
  }

  lemma RunSnoc(st: Progress, ids: seq<string>, i: nat, ctx: Context, translate: Provider, plain: PlainText, saveError: SaveError, lookupFault: LookupFault)
    requires i < |ids|
    ensures Run(st, ids[..i + 1], ctx, translate, plain, saveError, lookupFault)
      == Step(Run(st, ids[..i], ctx, translate, plain, saveError, lookupFault), ids[i], ctx, translate, plain, saveError, lookupFault)
  {
    assert ids[..i + 1][..i] == ids[..i];
  }

  /** A step in terms of the outcome of its project. */
  lemma StepOutcome(st: Progress, id: string, ctx: Context, translate: Provider, plain: PlainText, saveError: SaveError, lookupFault: LookupFault,
                    o: Outcome)
    requires o == ProcessProject(st.projects, id, ctx, translate, plain, saveError, lookupFault)
    ensures o.Saved? ==> (Step(st, id, ctx, translate, plain, saveError, lookupFault)
      == Progress(st.projects[id := st.projects[id].(translations := o.translations)], st.success + 1, st.errors))
    ensures o.Failed? ==> Step(st, id, ctx, translate, plain, saveError, lookupFault) == Progress(st.projects, st.success, st.errors + [o.error])
  {
    var next := Step(st, id, ctx, translate, plain, saveError, lookupFault);
    match o {
      case Saved(ts) =>
        assert next == Progress(st.projects[id := st.projects[id].(translations := ts)], st.success + 1, st.errors);
      case Failed(e) =>
        assert next == Progress(st.projects, st.success, st.errors + [e]);
    }
  }

  /** Every requested project adds exactly one success or one error message. */
  lemma {:induction false} RunCounts(st: Progress, ids: seq<string>, ctx: Context, translate: Provider, plain: PlainText, saveError: SaveError, lookupFault: LookupFault)
    ensures var r := Run(st, ids, ctx, translate, plain, saveError, lookupFault);
      r.success + |r.errors| == st.success + |st.errors| + |ids|
    decreases |ids|
  {
    if ids != [] {
      RunCounts(st, ids[..|ids| - 1], ctx, translate, plain, saveError, lookupFault);
    }
  }

  /** A project that cannot be found is reported and the store is left alone. */
  lemma MissingProjectReported(st: Progress, id: string, ctx: Context, translate: Provider, plain: PlainText, saveError: SaveError, lookupFault: LookupFault)
    requires lookupFault(id).None? && id !in st.projects
    ensures Step(st, id, ctx, translate, plain, saveError, lookupFault)
      == Progress(st.projects, st.success, st.errors + ["Project " + id + " not found"])
  {
  }

  /** A lookup that throws is reported with its message, counted as a failure, and the store is left alone. */
  lemma ThrowingLookupReported(st: Progress, id: string, ctx: Context, translate: Provider, plain: PlainText,
                               saveError: SaveError, lookupFault: LookupFault)
    requires lookupFault(id).Some?
    ensures Step(st, id, ctx, translate, plain, saveError, lookupFault)
      == Progress(st.projects, st.success, st.errors + ["Project " + id + ": " + CaughtMessage(lookupFault(id).value)])
  {
  }

  datatype Response =
    | Rejected(status: int, error: string)
    | Completed(total: nat, success: nat, failed: nat, errors: seq<string>)

  class ProjectStore {
    var projects: map<string, Project>

    constructor (projects: map<string, Project>)
      ensures this.projects == projects
    {
      this.projects := projects;
    }
  }

  /** The body of the loop over the requested projects: one project looked up, translated and saved. */
  method ProcessOne(store: ProjectStore, id: string, ctx: Context, translate: Provider, plain: PlainText,
                    saveError: SaveError, lookupFault: LookupFault) returns (o: Outcome)
    modifies store
    ensures o == ProcessProject(old(store.projects), id, ctx, translate, plain, saveError, lookupFault)
    ensures o.Saved? ==> store.projects == old(store.projects)[id := old(store.projects)[id].(translations := o.translations)]
    ensures o.Failed? ==> store.projects == old(store.projects)
  {
    var thrown := lookupFault(id);
    if thrown.Some? {
      return Failed("Project " + id + ": " + CaughtMessage(thrown.value));
    }
    if id !in store.projects {
      return Failed("Project " + id + " not found");
    }
    var p := store.projects[id];
    var def := FindTranslation(p.translations, ctx.defaultLang.id);
    if def.None? {
      return Failed("Project " + id + " has no default language translation");
    }
    var answers := FreshFor(def.value, ctx, translate, plain);
    var updates := BuildUpdates(ctx.targets, p.translations, def.value, answers);
    var err := saveError(id, updates);
    if err.Some? {
      return Failed("Project " + id + ": " + err.value);
    }
    store.projects := store.projects[id := p.(translations := updates)];
    o := Saved(updates);
  }

  /** The loop over the requested projects, in order, with its counters and error list. */
  /** One pass of the loop: the project is handled and `results` counts it. */
  method ProcessNext(store: ProjectStore, id: string, ctx: Context, translate: Provider, plain: PlainText,
                     saveError: SaveError, lookupFault: LookupFault, success: nat, failed: nat, errors: seq<string>)
    returns (success': nat, failed': nat, errors': seq<string>)
    requires failed == |errors|
    modifies store
    ensures Step(Progress(old(store.projects), success, errors), id, ctx, translate, plain, saveError, lookupFault)
      == Progress(store.projects, success', errors')
    ensures failed' == |errors'|
  {
    ghost var before := Progress(store.projects, success, errors);
    var o := ProcessOne(store, id, ctx, translate, plain, saveError, lookupFault);
    StepOutcome(before, id, ctx, translate, plain, saveError, lookupFault, o);
    match o {
      case Saved(_) =>
        success', failed', errors' := success + 1, failed, errors;
      case Failed(e) =>
        success', failed', errors' := success, failed + 1, errors + [e];
    }
  }

  method ProcessAll(store: ProjectStore, ids: seq<string>, ctx: Context, translate: Provider, plain: PlainText,
                    saveError: SaveError, lookupFault: LookupFault)
    returns (success: nat, failed: nat, errors: seq<string>)
    modifies store
    ensures Run(Progress(old(store.projects), 0, []), ids, ctx, translate, plain, saveError, lookupFault)
      == Progress(store.projects, success, errors)
    ensures failed == |errors| && success + failed == |ids|
  {
    success, failed := 0, 0;
    errors := [];
    ghost var start := store.projects;
    var i := 0;
    while i < |ids|
      invariant 0 <= i <= |ids|
      invariant Run(Progress(start, 0, []), ids[..i], ctx, translate, plain, saveError, lookupFault)
        == Progress(store.projects, success, errors)
      invariant failed == |errors|
    {
      RunSnoc(Progress(start, 0, []), ids, i, ctx, translate, plain, saveError, lookupFault);
      success, failed, errors := ProcessNext(store, ids[i], ctx, translate, plain, saveError, lookupFault, success, failed, errors);
      i := i + 1;
    }
    assert ids[..i] == ids;
    RunCounts(Progress(start, 0, []), ids, ctx, translate, plain, saveError, lookupFault);
  }

  /** The outer `catch`: an `AuthError` keeps its status, anything else is a 500. */
  function Rejection(t: Thrown): (r: Response)
    ensures r.Rejected?
    ensures t.AuthFailure? ==> r == Rejected(t.status, t.message)
    ensures t.ErrorThrown? ==> r == Rejected(500, t.message)
    ensures t.NonErrorThrown? ==> r == Rejected(500, "Failed to translate projects")
  {
    match t
    case AuthFailure(status, msg) => Rejected(status, msg)
    case ErrorThrown(msg) => Rejected(500, msg)
    case NonErrorThrown => Rejected(500, "Failed to translate projects")
  }

  /**
   * `POST /api/admin/projects/translate-all`. `authFault` is what
   * `requireAdmin` throws, `bodyFault` what `req.json()` throws,
   * `projectIds` is `None` when the body's field is not an array,
   * `languagesFault` is what the active-languages query throws and
   * `languages` is its answer.
   */
  method TranslateAllProjects(store: ProjectStore, authFault: Option<Thrown>, bodyFault: Option<Thrown>,
                              projectIds: Option<seq<string>>, languagesFault: Option<Thrown>,
                              languages: seq<Language>, translate: Provider, plain: PlainText, saveError: SaveError, lookupFault: LookupFault)
    returns (resp: Response)
    modifies store
    ensures authFault.Some? ==> resp == Rejection(authFault.value)
    ensures authFault.None? && bodyFault.Some? ==> resp == Rejection(bodyFault.value)
    ensures authFault.None? && bodyFault.None? && (projectIds.None? || projectIds.value == []) ==>
      resp == Rejected(400, "Invalid project IDs")
    ensures authFault.None? && bodyFault.None? && projectIds.Some? && projectIds.value != [] && languagesFault.Some? ==>
      resp == Rejection(languagesFault.value)
    ensures authFault.None? && bodyFault.None? && projectIds.Some? && projectIds.value != [] && languagesFault.None?
            && FindDefault(languages).None? ==>
      resp == Rejected(400, "No default language found")
    ensures (authFault.None? && bodyFault.None? && projectIds.Some? && projectIds.value != [] && languagesFault.None?
             && FindDefault(languages).Some? && TargetCodes(languages) == []) ==>
      resp == Rejected(400, "No target languages available")
    ensures (authFault.None? && bodyFault.None? && projectIds.Some? && projectIds.value != [] && languagesFault.None?
             && FindDefault(languages).Some? && TargetCodes(languages) != []) ==>
      resp.Completed?
    ensures resp.Rejected? ==> store.projects == old(store.projects)
    ensures resp.Completed? ==> projectIds.Some? && resp.total == |projectIds.value|
    ensures resp.Completed? ==> resp.success + resp.failed == resp.total && |resp.errors| == resp.failed
    ensures resp.Completed? ==>
      var ctx := Context(FindDefault(languages).value, TargetCodes(languages),
                         TargetLanguages(languages, TargetCodes(languages)));
      Run(Progress(old(store.projects), 0, []), projectIds.value, ctx, translate, plain, saveError, lookupFault)
        == Progress(store.projects, resp.success, resp.errors)
  {
    if authFault.Some? {
      return Rejection(authFault.value);
    }
    if bodyFault.Some? {
      return Rejection(bodyFault.value);
    }
    if projectIds.None? || projectIds.value == [] {
      return Rejected(400, "Invalid project IDs");
    }
    var ids := projectIds.value;
    if languagesFault.Some? {
      return Rejection(languagesFault.value);
    }
    var defaultLang := FindDefault(languages);
    if defaultLang.None? {
      return Rejected(400, "No default language found");
    }
    var codes := TargetCodes(languages);
    if codes == [] {
      return Rejected(400, "No target languages available");
    }
    var ctx := Context(defaultLang.value, codes, TargetLanguages(languages, codes));
    var success, failed, errors := ProcessAll(store, ids, ctx, translate, plain, saveError, lookupFault);
    resp := Completed(|ids|, success, failed, errors);
  }
}
