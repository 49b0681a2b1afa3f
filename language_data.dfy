/** A row of the language registry, shared by the admin screens and routes. */
module LanguageData {
  import opened Base

  datatype Language = Language(id: string, code: string, name: string, isDefault: bool, isActive: bool)

  /** `langs.find(l => l.isDefault)`. */
  function FindDefault(langs: seq<Language>): (r: Option<Language>)
    ensures r.None? <==> forall i :: 0 <= i < |langs| ==> !langs[i].isDefault
    ensures r.Some? ==> r.value in langs && r.value.isDefault
  {
    if langs == [] then None
    else if langs[0].isDefault then Some(langs[0])
    else FindDefault(langs[1..])
  }

  /** `find` answers with the first default language, and with nothing when there is none. */
  lemma {:induction false} FindDefaultIsFirst(langs: seq<Language>)
    ensures FindDefault(langs).None? <==> forall i :: 0 <= i < |langs| ==> !langs[i].isDefault
    ensures FindDefault(langs).Some? ==>
      exists i :: 0 <= i < |langs| && langs[i] == FindDefault(langs).value && langs[i].isDefault
        && forall j :: 0 <= j < i ==> !langs[j].isDefault
  {
    if langs != [] && !langs[0].isDefault {
      var rest := langs[1..];
      FindDefaultIsFirst(rest);
      assert forall i :: 0 < i < |langs| ==> langs[i] == rest[i - 1];
      if FindDefault(rest).Some? {
        var i :| 0 <= i < |rest| && rest[i] == FindDefault(rest).value && rest[i].isDefault
          && forall j :: 0 <= j < i ==> !rest[j].isDefault;
        assert langs[i + 1] == rest[i];
      }
    }
  }

  /** `languages.find(l => l.id === id)`: the first language with that id. */
  function FindById(langs: seq<Language>, id: string): (r: Option<Language>)
    ensures r.None? <==> forall i :: 0 <= i < |langs| ==> langs[i].id != id
    ensures r.Some? ==> r.value in langs && r.value.id == id
  {
    if langs == [] then None
    else if langs[0].id == id then Some(langs[0])
    else FindById(langs[1..], id)
  }

  /** The language found is the first one with that id. */
  lemma {:induction false} FindByIdIsFirst(langs: seq<Language>, id: string)
    ensures FindById(langs, id).Some? ==>
      exists i :: 0 <= i < |langs| && langs[i] == FindById(langs, id).value
        && forall j :: 0 <= j < i ==> langs[j].id != id
  {
    if langs != [] && langs[0].id != id {
      var rest := langs[1..];
      FindByIdIsFirst(rest, id);
      if FindById(rest, id).Some? {
        var i :| 0 <= i < |rest| && rest[i] == FindById(rest, id).value
          && forall j :: 0 <= j < i ==> rest[j].id != id;
        assert langs[i + 1] == rest[i];
        assert forall j :: 0 < j <= i ==> langs[j] == rest[j - 1];
      }
    }
  }
}
