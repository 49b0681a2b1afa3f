/**
 * The page builder's document: an ordered list of typed components, each
 * with a loosely typed data record, together with the builder's selection
 * state. `moveComponent` re-derives every `order` from list position;
 * `deleteComponent` does not renumber.
 */
module PageBuilder {
  import opened Base
  import opened LangText
  import opened PageData
  import ComponentRenderer

  /** What identifies a component apart from its derived `order`. */
  function Core(c: PageComponent): (string, ComponentType, ComponentData) {
    (c.id, c.ctype, c.data)
  }

  function Cores(s: seq<PageComponent>): (r: seq<(string, ComponentType, ComponentData)>)
    ensures |r| == |s| && forall i :: 0 <= i < |s| ==> r[i] == Core(s[i])
  {
    seq(|s|, i requires 0 <= i < |s| => Core(s[i]))
  }

  /** Every component's `order` is its position in the list. */
  predicate Ordered(s: seq<PageComponent>) {
    forall i :: 0 <= i < |s| ==> s[i].order == i
  }

  function Ids(s: seq<PageComponent>): set<string> {
    set i | 0 <= i < |s| :: s[i].id
  }

  predicate UniqueIds(s: seq<PageComponent>) {
    forall i, j :: 0 <= i < j < |s| ==> s[i].id != s[j].id
  }

  /** `s` without the element at position `k`. */
  function RemoveAt<T>(s: seq<T>, k: nat): (r: seq<T>)
    requires k < |s|
    ensures |r| == |s| - 1
  {
    s[..k] + s[k + 1..]
  }

  /** `s` with `x` inserted at position `k`, as `splice(k, 0, x)` does. */
  function InsertAt<T>(s: seq<T>, k: nat, x: T): (r: seq<T>)
    requires k <= |s|
    ensures |r| == |s| + 1
  {
    s[..k] + [x] + s[k..]
  }

  /** `items.map((item, index) => ({ ...item, order: index }))`. */
  function Renumber(s: seq<PageComponent>): (r: seq<PageComponent>)
    ensures |r| == |s| && Ordered(r) && Cores(r) == Cores(s)
  {
    seq(|s|, i requires 0 <= i < |s| => s[i].(order := i))
  }

  /** The list after `moveComponent(from, to)`. */
  function Moved(s: seq<PageComponent>, from: nat, to: nat): (r: seq<PageComponent>)
    requires from < |s| && to < |s|
    ensures |r| == |s| && Ordered(r)
    ensures Core(r[to]) == Core(s[from])
    ensures RemoveAt(Cores(r), to) == RemoveAt(Cores(s), from)
  {
    var x := InsertAt(RemoveAt(s, from), to, s[from]);
    RemoveInsert(RemoveAt(s, from), to, s[from]);
    assert Cores(x)[to] == Core(s[from]);
    CoresRemoveAt(x, to);
    CoresRemoveAt(s, from);
    Renumber(x)
  }

  lemma RemoveInsert<T>(s: seq<T>, k: nat, x: T)
    requires k <= |s|
    ensures InsertAt(s, k, x)[k] == x && RemoveAt(InsertAt(s, k, x), k) == s
  {
    var t := InsertAt(s, k, x);
    assert t[..k] == s[..k];
    assert t[k + 1..] == s[k..];
  }

  lemma CoresRemoveAt(s: seq<PageComponent>, k: nat)
    requires k < |s|
    ensures Cores(RemoveAt(s, k)) == RemoveAt(Cores(s), k)
  {
  }

  /** Two lists agreeing at `k` and everywhere else are equal. */
  lemma {:induction false} EqualByRemoveAt<T>(a: seq<T>, b: seq<T>, k: nat)
    requires k < |a| == |b| && a[k] == b[k] && RemoveAt(a, k) == RemoveAt(b, k)
    ensures a == b
  {
    forall i | 0 <= i < |a| ensures a[i] == b[i] {
      if i < k {
        assert a[i] == RemoveAt(a, k)[i];
      } else if i > k {
        assert a[i] == RemoveAt(a, k)[i - 1];
        assert b[i] == RemoveAt(b, k)[i - 1];
      }
    }
  }

  /** Lists with the same cores and both ordered are equal. */
  lemma {:induction false} OrderedCoresEqual(a: seq<PageComponent>, b: seq<PageComponent>)
    requires Ordered(a) && Ordered(b) && Cores(a) == Cores(b)
    ensures a == b
  {
    forall i | 0 <= i < |a| ensures a[i] == b[i] {
      assert Cores(a)[i] == Cores(b)[i];
    }
  }

  lemma MultisetRemoveAt<T>(a: seq<T>, k: nat)
    requires k < |a|
    ensures multiset(a) == multiset(RemoveAt(a, k)) + multiset{a[k]}
  {
    assert a == a[..k] + [a[k]] + a[k + 1..];
  }

  /** A move keeps every component: the result is a permutation of the input. */
  lemma MovedIsPermutation(s: seq<PageComponent>, from: nat, to: nat)
    requires from < |s| && to < |s|
    ensures multiset(Cores(Moved(s, from, to))) == multiset(Cores(s))
  {
    MultisetRemoveAt(Cores(Moved(s, from, to)), to);
    MultisetRemoveAt(Cores(s), from);
  }

  /** Moving an item back to where it came from restores the original list (renumbered). */
  lemma {:induction false} MoveBackRestores(s: seq<PageComponent>, from: nat, to: nat)
    requires from < |s| && to < |s|
    ensures Moved(Moved(s, from, to), to, from) == Renumber(s)
  {
    var m := Moved(s, from, to);
    var back := Moved(m, to, from);
    EqualByRemoveAt(Cores(back), Cores(s), from);
    OrderedCoresEqual(back, Renumber(s));
  }

  lemma {:induction false} IdsRemoveAt(s: seq<PageComponent>, k: nat)
    requires UniqueIds(s) && k < |s|
    ensures UniqueIds(RemoveAt(s, k))
    ensures s[k].id !in Ids(RemoveAt(s, k)) && Ids(RemoveAt(s, k)) + {s[k].id} == Ids(s)
  {
    var t := RemoveAt(s, k);
    forall i | 0 <= i < |t| ensures t[i] == s[if i < k then i else i + 1] {
    }
    forall x | x in Ids(s) ensures x in Ids(t) + {s[k].id} {
      var i :| 0 <= i < |s| && s[i].id == x;
      if i < k { assert t[i].id == x; }
      if i > k { assert t[i - 1].id == x; }
    }
  }

  lemma {:induction false} IdsInsertAt(t: seq<PageComponent>, k: nat, c: PageComponent)
    requires UniqueIds(t) && k <= |t| && c.id !in Ids(t)
    ensures UniqueIds(InsertAt(t, k, c)) && Ids(InsertAt(t, k, c)) == Ids(t) + {c.id}
  {
    var s := InsertAt(t, k, c);
    forall i | 0 <= i < |s| ensures s[i] == if i < k then t[i] else if i == k then c else t[i - 1] {
    }
    forall x | x in Ids(t) ensures x in Ids(s) {
      var i :| 0 <= i < |t| && t[i].id == x;
      if i < k { assert s[i].id == x; } else { assert s[i + 1].id == x; }
    }
    assert s[k].id == c.id;
  }

  lemma {:induction false} IdsRenumber(s: seq<PageComponent>)
    ensures Ids(Renumber(s)) == Ids(s)
    ensures UniqueIds(s) ==> UniqueIds(Renumber(s))
  {
    var r := Renumber(s);
    forall i | 0 <= i < |s| ensures r[i].id == s[i].id {
      assert Cores(r)[i] == Cores(s)[i];
    }
    forall x | x in Ids(s) ensures x in Ids(r) {
      var i :| 0 <= i < |s| && s[i].id == x;
      assert r[i].id == x;
    }
  }

  /** A move never gains, loses or duplicates an id. */
  lemma {:induction false} MovedKeepsIds(s: seq<PageComponent>, from: nat, to: nat)
    requires from < |s| && to < |s| && UniqueIds(s)
    ensures Ids(Moved(s, from, to)) == Ids(s) && UniqueIds(Moved(s, from, to))
  {
    var t := RemoveAt(s, from);
    IdsRemoveAt(s, from);
    IdsInsertAt(t, to, s[from]);
    IdsRenumber(InsertAt(t, to, s[from]));
  }

  /** Where a "move up" control leads: `index - 1`, offered only when `index > 0`. */
  function MoveUpTarget(index: nat, n: nat): (r: Option<nat>)
    requires index < n
    ensures r.Some? <==> index > 0
    ensures r.Some? ==> r.value < n && r.value + 1 == index
  {
    if index > 0 then Some(index - 1) else None
  }

  /** Where a "move down" control leads: `index + 1`, offered only when `index < n - 1`. */
  function MoveDownTarget(index: nat, n: nat): (r: Option<nat>)
    requires index < n
    ensures r.Some? <==> index < n - 1
    ensures r.Some? ==> r.value < n && r.value == index + 1
  {
    if index < n - 1 then Some(index + 1) else None
  }

  /** The data a freshly added component of type `t` starts with. */
  function DefaultComponentData(t: ComponentType): (d: ComponentData)
    ensures t == Spacer ==> d == map["height" := Num(60), "backgroundColor" := Str("#ffffff")]
    ensures t == Gallery ==> d == map["images" := Images([]), "backgroundColor" := Str("#ffffff")]
    ensures (t.Unknown? || t == Features || t == Testimonials) ==> d == map[]
    ensures !(t.Unknown? || t == Features || t == Testimonials) ==>
      "backgroundColor" in d && d["backgroundColor"] == Str(if t == Cta then "#000000" else "#ffffff")
    ensures (t == Hero || t == Text) ==> "textColor" in d && d["textColor"] == Str("#000000")
    ensures t == Cta ==> "textColor" in d && d["textColor"] == Str("#ffffff")
    ensures !(t == Hero || t == Text || t == Cta) ==> "textColor" !in d
    ensures "padding" !in d
  {
    match t
    case Hero => HeroDefaults()
    case Text => TextDefaults()
    case Image => ImageDefaults()
    case Gallery => map["images" := Images([]), "backgroundColor" := Str("#ffffff")]
    case Cta => CtaDefaults()
    case Spacer => map["height" := Num(60), "backgroundColor" := Str("#ffffff")]
    case _ => map[]
  }

  /** A freshly added component renders white on black as a call to action, and black on white otherwise. */
  lemma NewComponentColours(t: ComponentType)
    ensures ComponentRenderer.ContainerStyle(DefaultComponentData(t)) ==
      if t == Cta then ComponentRenderer.Style("#000000", "#ffffff", None)
      else ComponentRenderer.Style("#ffffff", "#000000", None)
  {
    var d := DefaultComponentData(t);
    var st := ComponentRenderer.ContainerStyle(d);
    assert st.padding == None;
  }

  // The placeholder texts of the default components, in Dutch and French.
  const HeroTitleNl: string := "Welkom bij Ons Portfolio"
  const HeroTitleFr: string := "Bienvenue dans Notre Portfolio"
  const HeroSubtitleNl: string := "Ontdek unieke handgemaakte stukken gemaakt met kwaliteitsmaterialen en aandacht voor detail."
  const HeroSubtitleFr: string := "Découvrez des pièces artisanales uniques fabriquées avec des matériaux de qualité et une attention aux détails."
  const HeroButtonNl: string := "Bekijk Projecten"
  const HeroButtonFr: string := "Voir les Projets"
  const TextContentNl: string := "Voeg hier uw tekstinhoud toe..."
  const TextContentFr: string := "Ajoutez votre contenu textuel ici..."
  const ImageAltNl: string := "Afbeelding beschrijving"
  const ImageAltFr: string := "Description de l'image"
  const CtaHeadingNl: string := "Klaar om Uw Project te Starten?"
  const CtaHeadingFr: string := "Prêt à Commencer Votre Projet?"
  const CtaDescriptionNl: string := "Neem contact met ons op om uw ideeën te bespreken en te leren hoe we uw visie tot leven kunnen brengen."
  const CtaDescriptionFr: string := "Contactez-nous pour discuter de vos idées et apprendre comment nous pouvons donner vie à votre vision."
  const CtaButtonNl: string := "Contact Opnemen"
  const CtaButtonFr: string := "Nous Contacter"

  function HeroDefaults(): ComponentData
  {
    map[
      "title" := Langs([("nl", HeroTitleNl), ("fr", HeroTitleFr)]),
      "subtitle" := Langs([
        ("nl", HeroSubtitleNl),
        ("fr", HeroSubtitleFr)]),
      "heroButtonText" := Langs([("nl", HeroButtonNl), ("fr", HeroButtonFr)]),
      "heroButtonLink" := Str("/projects"),
      "textColor" := Str("#000000"),
      "backgroundColor" := Str("#ffffff")]
  }

  function TextDefaults(): ComponentData
  {
    map[
      "content" := Langs([("nl", TextContentNl), ("fr", TextContentFr)]),
      "alignment" := Str("left"),
      "textColor" := Str("#000000"),
      "backgroundColor" := Str("#ffffff")]
  }

  function ImageDefaults(): ComponentData
  {
    map[
      "imageUrl" := Str(""),
      "alt" := Langs([("nl", ImageAltNl), ("fr", ImageAltFr)]),
      "caption" := Langs([("nl", ""), ("fr", "")]),
      "backgroundColor" := Str("#ffffff")]
  }

  function CtaDefaults(): ComponentData
  {
    map[
      "heading" := Langs([("nl", CtaHeadingNl), ("fr", CtaHeadingFr)]),
      "description" := Langs([
        ("nl", CtaDescriptionNl),
        ("fr", CtaDescriptionFr)]),
      "ctaButtonText" := Langs([("nl", CtaButtonNl), ("fr", CtaButtonFr)]),
      "ctaButtonLink" := Str("/contact"),
      "textColor" := Str("#ffffff"),
      "backgroundColor" := Str("#000000")]
  }

  /** The list after `updateComponent(id, data)`. */
  function Updated(s: seq<PageComponent>, id: string, d: ComponentData): (r: seq<PageComponent>)
    ensures |r| == |s|
    ensures forall i :: 0 <= i < |s| ==>
      r[i].id == s[i].id && r[i].ctype == s[i].ctype && r[i].order == s[i].order
      && r[i].data == (if s[i].id == id then d else s[i].data)
  {
    seq(|s|, i requires 0 <= i < |s| => if s[i].id == id then s[i].(data := d) else s[i])
  }

  /** The list after `deleteComponent(id)`: `filter(comp => comp.id !== id)`. */
  function Deleted(s: seq<PageComponent>, id: string): (r: seq<PageComponent>)
    ensures |r| <= |s|
    ensures forall i :: 0 <= i < |r| ==> r[i].id != id && r[i] in s
    ensures forall i :: 0 <= i < |s| && s[i].id != id ==> s[i] in r
  {
    if s == [] then []
    else
      if s[0].id == id then Deleted(s[1..], id)
      else [s[0]] + Deleted(s[1..], id)
  }

  /** Each component with another id is kept as often as it occurs; every one with that id is dropped. */
  lemma {:induction false} DeletedCounts(s: seq<PageComponent>, id: string, c: PageComponent)
    ensures multiset(Deleted(s, id))[c] == if c.id == id then 0 else multiset(s)[c]
  {
    if s != [] {
      assert s == [s[0]] + s[1..];
      DeletedCounts(s[1..], id, c);
    }
  }

  /** The filter keeps the page's order: deleting from two parts deletes from each in turn. */
  lemma {:induction false} DeletedAppend(a: seq<PageComponent>, b: seq<PageComponent>, id: string)
    ensures Deleted(a + b, id) == Deleted(a, id) + Deleted(b, id)
  {
    if a == [] {
      assert a + b == b;
    } else {
      assert (a + b)[1..] == a[1..] + b;
      DeletedAppend(a[1..], b, id);
    }
  }

  /** Deleting an id that is not in the list changes nothing. */
  lemma {:induction false} DeleteAbsentIsIdentity(s: seq<PageComponent>, id: string)
    requires id !in Ids(s)
    ensures Deleted(s, id) == s
  {
    if s != [] {
      assert s[0].id in Ids(s);
      assert Ids(s[1..]) <= Ids(s) by {
        forall x | x in Ids(s[1..]) ensures x in Ids(s) {
          var i :| 0 <= i < |s[1..]| && s[1..][i].id == x;
          assert s[i + 1].id == x;
        }
      }
      DeleteAbsentIsIdentity(s[1..], id);
    }
  }

  /** With distinct ids, deleting a present id removes exactly one component. */
  lemma {:induction false} DeleteRemovesOne(s: seq<PageComponent>, id: string)
    requires UniqueIds(s) && id in Ids(s)
    ensures |Deleted(s, id)| == |s| - 1
  {
    if s[0].id == id {
      assert id !in Ids(s[1..]) by {
        forall i | 0 <= i < |s[1..]| ensures s[1..][i].id != id {
          assert s[1..][i] == s[i + 1];
        }
      }
      DeleteAbsentIsIdentity(s[1..], id);
    } else {
      var i :| 0 <= i < |s| && s[i].id == id;
      assert s[1..][i - 1].id == id;
      DeleteRemovesOne(s[1..], id);
    }
  }

  /** Adding, duplicating and updating keep `order` equal to position; a move establishes it. */
  lemma AppendKeepsOrdered(s: seq<PageComponent>, c: PageComponent)
    requires Ordered(s) && c.order == |s|
    ensures Ordered(s + [c])
  {
  }

  lemma UpdatedKeepsOrderedAndIds(s: seq<PageComponent>, id: string, d: ComponentData)
    ensures Ordered(s) ==> Ordered(Updated(s, id, d))
    ensures Ids(Updated(s, id, d)) == Ids(s)
  {
    var r := Updated(s, id, d);
    assert forall x :: x in Ids(r) <==> x in Ids(s) by {
      forall x ensures x in Ids(r) <==> x in Ids(s) {
        if x in Ids(r) { var i :| 0 <= i < |r| && r[i].id == x; assert s[i].id == x; }
        if x in Ids(s) { var i :| 0 <= i < |s| && s[i].id == x; assert r[i].id == x; }
      }
    }
  }

  /**
   * The builder's state: the component list, the component shown in the
   * editor sidebar, and whether the sidebar is open.
   */
  /**
   * The sidebar edits a copy of the selected component; the copy is current
   * when the list still holds a component with its id, type and data.
   */
  predicate Current(s: seq<PageComponent>, sel: Option<PageComponent>) {
    sel.Some? ==> Core(sel.value) in Cores(s)
  }

  /** The selection after `updateComponent(id, d)` once the sidebar copy is refreshed too. */
  function RefreshedSelection(sel: Option<PageComponent>, id: string, d: ComponentData): (r: Option<PageComponent>)
    ensures r.Some? <==> sel.Some?
    ensures r.Some? ==> r.value.id == sel.value.id && r.value.ctype == sel.value.ctype
    ensures r.Some? ==> r.value.data == if sel.value.id == id then d else sel.value.data
  {
    if sel.Some? && sel.value.id == id then Some(sel.value.(data := d)) else sel
  }

  lemma CurrentAfterMove(s: seq<PageComponent>, sel: Option<PageComponent>, from: nat, to: nat)
    requires from < |s| && to < |s| && Current(s, sel)
    ensures Current(Moved(s, from, to), sel)
  {
    if sel.Some? {
      MovedIsPermutation(s, from, to);
      assert Core(sel.value) in multiset(Cores(s));
    }
  }

  /** Updating the list and refreshing the selection keeps the sidebar copy current. */
  lemma CurrentAfterRefreshedUpdate(s: seq<PageComponent>, sel: Option<PageComponent>, id: string, d: ComponentData)
    requires Current(s, sel)
    ensures Current(Updated(s, id, d), RefreshedSelection(sel, id, d))
  {
    if sel.Some? {
      var i :| 0 <= i < |s| && Cores(s)[i] == Core(sel.value);
      assert Cores(Updated(s, id, d))[i] == Core(RefreshedSelection(sel, id, d).value);
    }
  }

  lemma CurrentAfterDelete(s: seq<PageComponent>, sel: Option<PageComponent>, id: string)
    requires Current(s, sel) && !(sel.Some? && sel.value.id == id)
    ensures Current(Deleted(s, id), sel)
  {
    if sel.Some? {
      var i :| 0 <= i < |s| && Cores(s)[i] == Core(sel.value);
      var j :| 0 <= j < |Deleted(s, id)| && Deleted(s, id)[j] == s[i];
      assert Cores(Deleted(s, id))[j] == Core(sel.value);
    }
  }

  lemma CurrentAfterAppend(s: seq<PageComponent>, sel: Option<PageComponent>, c: PageComponent)
    requires Current(s, sel) || sel == Some(c)
    ensures Current(s + [c], sel)
  {
    if sel.Some? {
      if sel == Some(c) {
        assert Cores(s + [c])[|s|] == Core(c);
      } else {
        var i :| 0 <= i < |s| && Cores(s)[i] == Core(sel.value);
        assert Cores(s + [c])[i] == Core(sel.value);
      }
    }
  }

  /**
   * As written, `updateComponent` replaces the list but not the selected
   * copy, so after any edit that changes the data the sidebar holds a
   * component the list no longer contains.
   */
  lemma StaleSelectionAsWritten(c: PageComponent, d: ComponentData)
    requires d != c.data
    ensures Current([c], Some(c))
    ensures !Current(Updated([c], c.id, d), Some(c))
  {
    assert Cores([c])[0] == Core(c);
    assert Cores(Updated([c], c.id, d)) == [(c.id, c.ctype, d)];
  }

  class Builder {
    var components: seq<PageComponent>
    var selected: Option<PageComponent>
    var isEditing: bool

    constructor (initial: seq<PageComponent>)
      ensures components == initial && selected == None && !isEditing
    {
      components := initial;
      selected := None;
      isEditing := false;
    }

    /** `moveComponent(fromIndex, toIndex)`. */
    method MoveComponent(from: nat, to: nat)
      requires from < |components| && to < |components|
      modifies this
      ensures components == Moved(old(components), from, to)
      ensures selected == old(selected) && isEditing == old(isEditing)
      ensures old(Current(components, selected)) ==> Current(components, selected)
    {
      if Current(components, selected) {
        CurrentAfterMove(components, selected, from, to);
      }
      var items := components;
      var moved := items[from];
      items := items[..from] + items[from + 1..];
      items := items[..to] + [moved] + items[to..];
      components := Renumber(items);
    }

    /** `addComponent(type)`, with `newId` standing for the generated id. */
    method AddComponent(t: ComponentType, newId: string) returns (c: PageComponent)
      requires newId !in Ids(components)
      modifies this
      ensures c == PageComponent(newId, t, |old(components)|, DefaultComponentData(t))
      ensures components == old(components) + [c]
      ensures selected == Some(c) && isEditing
      ensures Current(components, selected)
    {
      c := PageComponent(newId, t, |components|, DefaultComponentData(t));
      components := components + [c];
      selected := Some(c);
      isEditing := true;
      CurrentAfterAppend(old(components), selected, c);
    }

    /** `updateComponent(id, data)`: only the list changes; the selected copy keeps its old data. */
    method UpdateComponent(id: string, d: ComponentData)
      modifies this
      ensures components == Updated(old(components), id, d)
      ensures selected == old(selected) && isEditing == old(isEditing)
      ensures old(Current(components, selected)) && !(selected.Some? && selected.value.id == id) ==>
        Current(components, selected)
    {
      if Current(components, selected) && !(selected.Some? && selected.value.id == id) {
        CurrentAfterRefreshedUpdate(components, selected, id, d);
        assert RefreshedSelection(selected, id, d) == selected;
      }
      components := Updated(components, id, d);
    }

    /** `deleteComponent(id)`. */
    method DeleteComponent(id: string)
      modifies this
      ensures components == Deleted(old(components), id)
      ensures old(selected).Some? && old(selected).value.id == id ==> selected == None && !isEditing
      ensures !(old(selected).Some? && old(selected).value.id == id) ==>
        selected == old(selected) && isEditing == old(isEditing)
      ensures old(Current(components, selected)) ==> Current(components, selected)
    {
      if Current(components, selected) && !(selected.Some? && selected.value.id == id) {
        CurrentAfterDelete(components, selected, id);
      }
      components := Deleted(components, id);
      if selected.Some? && selected.value.id == id {
        selected := None;
        isEditing := false;
      }
    }

    /** `duplicateComponent(component)`: a shallow copy under `newId`, appended. */
    method DuplicateComponent(component: PageComponent, newId: string) returns (c: PageComponent)
      requires newId !in Ids(components)
      modifies this
      ensures c == component.(id := newId, order := |old(components)|)
      ensures components == old(components) + [c]
      ensures selected == old(selected) && isEditing == old(isEditing)
      ensures old(Current(components, selected)) ==> Current(components, selected)
    {
      c := component.(id := newId, order := |components|);
      if Current(components, selected) {
        CurrentAfterAppend(components, selected, c);
      }
      components := components + [c];
    }

    /** Clicking a component selects it and opens the editor. */
    method Select(component: PageComponent)
      modifies this
      ensures selected == Some(component) && isEditing && components == old(components)
      ensures component in components ==> Current(components, selected)
    {
      if component in components {
        var i :| 0 <= i < |components| && components[i] == component;
        assert Cores(components)[i] == Core(component);
      }
      selected := Some(component);
      isEditing := true;
    }

    /** The sidebar's close button. */
    method CloseEditor()
      modifies this
      ensures !isEditing && selected == old(selected) && components == old(components)
    {
      isEditing := false;
    }

    /** The list handed to `onSave` and `onPreview`. */
    method Save() returns (saved: seq<PageComponent>)
      ensures saved == components
    {
      saved := components;
    }
  }
}
