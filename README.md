# A verified model of the nextjs-cms core

This project models, in Dafny, the deterministic logic of a small Next.js CMS
for a furniture workshop: the admin page builder and its component editor and
renderer, the media library, the bulk "translate all projects" route, the
public gallery's project card and modal, the contact, project and content
forms, the language registry route, the analytics service, the admin
navigation bar, the admin project list, the placeholder-image maintenance
script and the light/dark theme context.

Each source file is one module (`page_builder.dfy` for
`src/components/page-builder/page-builder.tsx`, and so on). Shared modules:

- `Base`: `Option` and `Result`.
- `Strings`: JavaScript's `trim`, `split`, `join`, `includes`, `toLowerCase`,
  `startsWith`, number rendering and a lexicographic order.
- `LangText`: a JavaScript object with string keys, in key-insertion order.
- `RichText`: the editor's document trees.
- `PageData`: a page component and its data record.
- `LanguageData`: a row of the language registry.
- `GalleryData`: a published project as the gallery receives it.

State that a React component keeps in `useState`, or that a route keeps in a
database table, is a `class` whose fields the handlers update; each handler's
`ensures` gives the whole new state as a function of the old one. Pure
expressions (`getText`, the validators, `isActive`, the comparator) are
functions with named results. Loops become methods with loop invariants,
proved equal to a recursive reference function. Examples are the
translate-all loop over project ids and the `for-of` loops that rebuild
documents and material lists, `fetchMedia`'s nested `forEach`, analytics'
per-day `forEach`, content-form's error `forEach`, the project list's
`append` calls and the image script's `for` loop.

The network, Prisma, `requireAdmin`, the translation provider, the slug
checker, `extractPlainText` and `generateSlug` are parameters. They are
function values, or the outcome a call had (`SaveResult`, `FetchOutcome`,
`CreateOutcome`, `dbFault`, `queryFault`, `lookupFault`, and translate-all's
`authFault`, `bodyFault`, `languagesFault` and `saveError`). Generated ids and the clock
(`newId`, `id`, `now`) are parameters too.

## Model

| member | source | states |
|---|---|---|
| PageBuilder.Renumber | src/components/page-builder/page-builder.tsx:35-38 | renumbering keeps length and every component's identity, and makes each `order` equal its position |
| PageBuilder.Moved | src/components/page-builder/page-builder.tsx:28-40 | after a move the list has the same length and is ordered; the moved component sits at `to`, and removing it there gives the input without position `from` |
| PageBuilder.MovedIsPermutation | src/components/page-builder/page-builder.tsx:30-32 | a move is a permutation of the components |
| PageBuilder.MoveBackRestores | src/components/page-builder/page-builder.tsx:28-40 | moving from `to` back to `from` restores the original list, renumbered |
| PageBuilder.MovedKeepsIds | src/components/page-builder/page-builder.tsx:28-40 | a move keeps the set of ids and keeps them distinct |
| PageBuilder.RemoveInsert | src/components/page-builder/page-builder.tsx:30-32 | `splice(k, 0, x)` followed by removing position `k` gives the list back |
| PageBuilder.OrderedCoresEqual | src/components/page-builder/page-builder.tsx:35-38 | two ordered lists with the same components are equal |
| PageBuilder.MoveUpTarget | src/components/page-builder/page-builder.tsx:142 | "move up" is offered exactly when `index > 0`, and leads to `index - 1` in range |
| PageBuilder.MoveDownTarget | src/components/page-builder/page-builder.tsx:143 | "move down" is offered exactly when `index < n - 1`, and leads to `index + 1` in range |
| PageBuilder.DefaultComponentData | src/components/page-builder/page-builder.tsx:180-253 | a spacer starts with height 60 and a gallery with no images; features, testimonials and unknown types get `{}`; every other type has background `#ffffff`, except a call to action's `#000000`; hero and text get text colour `#000000`, a call to action `#ffffff`, the rest none; no default sets padding |
| PageBuilder.NewComponentColours | src/components/page-builder/page-builder.tsx:180-253 | a new call to action renders white on black, every other new component black on white, and none has padding |
| PageBuilder.Updated | src/components/page-builder/page-builder.tsx:55-61 | only components with that id get the new data; ids, types, orders and the other components are unchanged |
| PageBuilder.UpdatedKeepsOrderedAndIds | src/components/page-builder/page-builder.tsx:55-61 | an update keeps the order invariant and the set of ids |
| PageBuilder.Deleted | src/components/page-builder/page-builder.tsx:64 | every kept component has another id and comes from the list, and every component with another id is kept |
| PageBuilder.DeletedCounts | src/components/page-builder/page-builder.tsx:64 | each component with another id is kept as often as it occurs, unchanged and not renumbered; every one with that id is dropped |
| PageBuilder.DeletedAppend | src/components/page-builder/page-builder.tsx:64 | deleting from a concatenation deletes from each part, so the kept components stay in order |
| PageBuilder.DeleteAbsentIsIdentity | src/components/page-builder/page-builder.tsx:64 | deleting an id that is not present changes nothing |
| PageBuilder.DeleteRemovesOne | src/components/page-builder/page-builder.tsx:64 | with distinct ids, deleting a present id removes exactly one component |
| PageBuilder.AppendKeepsOrdered | src/components/page-builder/page-builder.tsx:42-53 | appending a component whose order is the old length keeps the order invariant |
| PageBuilder.RefreshedSelection | src/components/page-builder/page-builder.tsx:55-61 | the selection after an update, with the sidebar copy refreshed too (the corrected behaviour, see Findings) |
| PageBuilder.CurrentAfterMove | src/components/page-builder/page-builder.tsx:28-40 | a move keeps the selected copy equal to its listed component |
| PageBuilder.CurrentAfterRefreshedUpdate | src/components/page-builder/page-builder.tsx:55-61 | updating with the refreshed selection keeps the sidebar copy current |
| PageBuilder.CurrentAfterDelete | src/components/page-builder/page-builder.tsx:63-69 | deleting another component keeps the selection current |
| PageBuilder.CurrentAfterAppend | src/components/page-builder/page-builder.tsx:42-53 | appending keeps the selection current, and a just-added selected component is current |
| PageBuilder.StaleSelectionAsWritten | src/components/page-builder/page-builder.tsx:55-61 | as written, after an update the selected copy no longer equals its listed component |
| PageBuilder.Builder.constructor | src/components/page-builder/page-builder.tsx:24-26 | the builder starts with the given components, no selection and the editor closed |
| PageBuilder.Builder.MoveComponent | src/components/page-builder/page-builder.tsx:28-40 | the list becomes `Moved(old list, from, to)`; the selection is unchanged and stays current |
| PageBuilder.Builder.AddComponent | src/components/page-builder/page-builder.tsx:42-53 | appends one component with the type, order equal to the old length and the default data, then selects it and opens the editor |
| PageBuilder.Builder.UpdateComponent | src/components/page-builder/page-builder.tsx:55-61 | the list becomes `Updated(...)`; the selected copy and the editing flag stay as they were, so a selection of another component stays current |
| PageBuilder.Builder.DeleteComponent | src/components/page-builder/page-builder.tsx:63-69 | the list becomes `Deleted(...)`; the selection and the editor are cleared only when the selected id was deleted |
| PageBuilder.Builder.DuplicateComponent | src/components/page-builder/page-builder.tsx:71-79 | appends a shallow copy with the new id and order equal to the old length; the original and the selection are untouched |
| PageBuilder.Builder.Select | src/components/page-builder/page-builder.tsx:136-139 | clicking selects the component and opens the editor |
| PageBuilder.Builder.CloseEditor | src/components/page-builder/page-builder.tsx:161 | closing the sidebar keeps the selection and the list |
| PageBuilder.Builder.Save | src/components/page-builder/page-builder.tsx:81-87 | `onSave` and `onPreview` receive the current list |
| PageData.Field | src/components/page-builder/component-renderer.tsx:35 | `data[key]` is present exactly when the key is |
| PageData.OrElse | src/components/page-builder/component-renderer.tsx:366-368 | `a \|\| b` is `a` when truthy, else `b` |
| LangText.Lookup | src/components/page-builder/component-renderer.tsx:49 | a lookup finds nothing exactly when no entry has the key; otherwise it finds an entry's value |
| LangText.LookupAt | src/components/page-builder/component-renderer.tsx:49 | with distinct keys, the lookup of an entry's key finds that entry |
| LangText.Set | src/components/page-builder/component-editor.tsx:56-63 | `{ ...m, [k]: v }` maps `k` to `v` and every other key as before; an existing key keeps its place and a new one goes last |
| LangText.SetKeepsUniqueKeys | src/components/page-builder/component-editor.tsx:56-63 | the spread never makes a duplicate key |
| LangText.SetSetSameKey | src/components/page-builder/component-editor.tsx:56-63 | a second assignment to the same key overrides the first |
| LangText.Values | src/components/page-builder/component-renderer.tsx:49 | `Object.values` lists the values in key order |
| LangText.Keys | src/components/contact-form.tsx:80 | `Object.keys` lists the keys in insertion order |
| ComponentRenderer.NonEmpty | src/components/page-builder/component-renderer.tsx:49 | `text[k]` counts only when present and non-empty |
| ComponentRenderer.Resolve | src/components/page-builder/component-renderer.tsx:49 | the requested language's non-empty text, else the non-empty `'nl'` text, else the first value, else `''` |
| ComponentRenderer.GetText | src/components/page-builder/component-renderer.tsx:46-50 | `''` for an absent value, a plain string unchanged, a language map resolved; never fails |
| ComponentRenderer.ResolveIsAnEntry | src/components/page-builder/component-renderer.tsx:49 | resolution yields one of the map's own texts or `''` |
| ComponentRenderer.ResolveAllEmpty | src/components/page-builder/component-renderer.tsx:49 | a map of empty texts resolves to `''` in every language |
| ComponentRenderer.ResolveRequested | src/components/page-builder/component-renderer.tsx:49 | a non-empty entry for the requested language always wins |
| ComponentRenderer.StringOr | src/components/page-builder/component-renderer.tsx:38-39 | `data[key] \|\| fallback` for string fields |
| ComponentRenderer.ContainerStyle | src/components/page-builder/component-renderer.tsx:37-43 | a non-empty colour string in the data is used; a missing or falsy colour, and in the model any value that is not a string, falls back to background `#ffffff` and text `#000000`; padding exactly when `data.padding` is a padding value, and then that value |
| ComponentRenderer.AlignmentClass | src/components/page-builder/component-renderer.tsx:190-193 | `center` and `right` map to their classes, anything else to `text-left`, in both directions |
| ComponentRenderer.ColumnsClass | src/components/page-builder/component-renderer.tsx:269-273 | 4 and 2 columns map to their classes exactly; every other value gives 3 |
| ComponentRenderer.IconFor | src/components/page-builder/component-renderer.tsx:124-139 | each of the eleven names in `IconTable` gives its own icon; any other name gives `Award` |
| ComponentRenderer.IconTableOneToOne | src/components/page-builder/component-renderer.tsx:124-139 | no two names in the table give the same icon |
| ComponentRenderer.SliceEnd | src/components/page-builder/component-renderer.tsx:274 | where `slice(0, end)` stops, including negative ends |
| ComponentRenderer.FeaturedLimit | src/components/page-builder/component-renderer.tsx:274 | a non-zero number is the limit, `true` counts as 1, and a missing or falsy `maxItems` gives 8; in the model any other value also gives 8; never zero |
| ComponentRenderer.Featured | src/components/page-builder/component-renderer.tsx:274-293 | the featured grid lists the first `FeaturedLimit` projects (a negative limit counting from the back); "View All" shows exactly when there are more projects than the limit |
| ComponentRenderer.FeaturedAllOrViewAll | src/components/page-builder/component-renderer.tsx:274-293 | with a positive limit, "View All" shows exactly when some project is not listed, and at most the limit is listed |
| ComponentRenderer.SpacerHeight | src/components/page-builder/component-renderer.tsx:411 | a non-zero numeric height is used and a missing or falsy one gives 60; in the model a value that is not a number also gives 60; never zero |
| ComponentRenderer.GallerySection | src/components/page-builder/component-renderer.tsx:267-312 | the featured grid exactly when `showFeatured` is set and projects arrived; otherwise the image grid of the given images when there are any; otherwise the empty notice |
| ComponentRenderer.CtaHeading | src/components/page-builder/component-renderer.tsx:366-368 | the call-to-action heading is `getText(data.title \|\| data.heading)` |
| ComponentEditor.UpdateData | src/components/page-builder/component-editor.tsx:49-54 | the old record with only `key` set to the value |
| ComponentEditor.SpreadEntries | src/components/page-builder/component-editor.tsx:58 | spreading a map copies it; spreading a string gives one entry per character under its index; anything else gives `{}` |
| ComponentEditor.UpdateMultilingualText | src/components/page-builder/component-editor.tsx:56-63 | the record gains `key` and keeps every other field; `key` maps `lang` to `v` and every other language to what the spread old value gave it |
| ComponentEditor.GetMultilingualText | src/components/page-builder/component-editor.tsx:65-70 | `''` when falsy, a plain string unchanged, else `value[lang]` or `''` with no fallback |
| ComponentEditor.EditThenRead | src/components/page-builder/component-editor.tsx:56-70 | reading back the edited language gives what was typed |
| ComponentEditor.EditThenRender | src/components/page-builder/component-editor.tsx:56-63 | a non-empty edited text is what the renderer shows in that language |
| ComponentEditor.EditKeepsOtherLanguages | src/components/page-builder/component-editor.tsx:56-63 | editing one language keeps every other language's entry |
| ComponentEditor.EditKeepsOtherFields | src/components/page-builder/component-editor.tsx:56-63 | editing one field leaves the other fields alone |
| ComponentEditor.EditOfPlainString | src/components/page-builder/component-editor.tsx:56-63 | editing a plain-string field spreads it into per-character entries, so other languages render its first character |
| ComponentEditor.SpreadHasNoCode | src/components/page-builder/component-editor.tsx:58 | a spread string has no entry for a real language code |
| ComponentEditor.IndexKeyIsNoCode | src/components/page-builder/component-editor.tsx:58 | an index key never equals a real language code |
| ComponentEditor.SpacerHeightInput | src/components/page-builder/component-editor.tsx:441 | an unparsable or zero input is stored as 60 |
| ComponentEditor.SpacerHeightRoundTrip | src/components/page-builder/component-editor.tsx:441 | the renderer draws the spacer at the height the editor stored |
| ComponentEditor.ToGalleryImages | src/components/page-builder/component-editor.tsx:81-86 | same length and order, each `{ id, url: originalUrl, alt, caption: '' }` |
| ComponentEditor.ActiveLanguageFor | src/components/page-builder/component-editor.tsx:39-40 | the default language's code, else `'nl'` |
| ComponentEditor.LibraryPropsAsWritten | src/components/page-builder/component-editor.tsx:110-115 | the props as passed: `allowMultiple` never set, callbacks by mode |
| ComponentEditor.MultipleSelectionUnreachableAsWritten | src/components/page-builder/component-editor.tsx:110-115 | as written, a click in multiple mode reaches no callback |
| ComponentEditor.LibraryPropsFor | src/components/page-builder/component-editor.tsx:110-115 | the corrected props: multiple mode turns on `allowMultiple` |
| ComponentEditor.LibraryClicksReachEditor | src/components/page-builder/component-editor.tsx:79-90 | with the corrected props, each multiple-mode click reports the toggled selection, and a single-mode click reports the item |
| ComponentEditor.Editor.constructor | src/components/page-builder/component-editor.tsx:25-29 | the library is closed, the mode is single, the target is empty and the language is `'nl'` |
| ComponentEditor.Editor.LanguagesLoaded | src/components/page-builder/component-editor.tsx:32-47 | a successful fetch stores the languages and picks the default's code; a failure changes nothing |
| ComponentEditor.Editor.OpenMediaLibrary | src/components/page-builder/component-editor.tsx:92-96 | sets the target and the mode, and opens the library |
| ComponentEditor.Editor.CurrentLibraryProps | src/components/page-builder/component-editor.tsx:110-115 | as written, multiple selection is never allowed; `onSelect` is passed exactly in single mode, `onSelectMultiple` exactly in multiple mode |
| ComponentEditor.Editor.HandleMediaSelect | src/components/page-builder/component-editor.tsx:72-77 | emits a change only for `backgroundImage` or `imageUrl`, with that field set to the URL; always closes the library |
| ComponentEditor.Editor.HandleMediaSelectMultiple | src/components/page-builder/component-editor.tsx:79-90 | emits a change only for `images`, with the converted list; always closes the library |
| ComponentEditor.Editor.BackToEditor | src/components/page-builder/component-editor.tsx:104 | closes the library and changes nothing else |
| ComponentEditor.Editor.Receive | src/components/page-builder/component-editor.tsx:19-22 | a new `component` prop replaces the edited component only |
| ComponentEditor.EditAsWritten | src/components/page-builder/page-builder.tsx:169-171 | one edit as written: the list is updated from the sidebar copy, which is kept |
| ComponentEditor.SecondEditLosesFirstAsWritten | src/components/page-builder/page-builder.tsx:169-171 | on a concrete component, two edits as written leave only the second |
| ComponentEditor.Edit | src/components/page-builder/page-builder.tsx:169-171 | one edit with the copy refreshed: the list and the copy both get the new data |
| ComponentEditor.EditsAccumulate | src/components/page-builder/page-builder.tsx:169-171 | with the copy refreshed, two edits both reach the listed component |
| MediaLibrary.ToItem | src/components/admin/media-library.tsx:73-83 | id is the image id, else `project-order`; alt is the image's, else the first title, else "Project image"; filename is the last `/` segment, else "image"; size unknown |
| MediaLibrary.ItemsOf | src/components/admin/media-library.tsx:72-84 | one item per image of a project, in order |
| MediaLibrary.Flatten | src/components/admin/media-library.tsx:69-87 | every item comes from one of the projects |
| MediaLibrary.FlattenCount | src/components/admin/media-library.tsx:69-87 | the flattened count is the sum of the projects' image counts |
| MediaLibrary.FlattenSnoc | src/components/admin/media-library.tsx:71-85 | flattening one more project appends its items |
| MediaLibrary.FlattenedFromImage | src/components/admin/media-library.tsx:71-85 | every item comes from one image of one project |
| MediaLibrary.FormatFileSize | src/components/admin/media-library.tsx:125-126 | a size of 0 is "Unknown size" |
| MediaLibrary.FlattenedSizeUnknown | src/components/admin/media-library.tsx:79-82 | every fetched item is labelled "Unknown size" |
| MediaLibrary.Filtered | src/components/admin/media-library.tsx:96-99 | each item matching the lower-cased term in its alt or filename is kept as often as it occurs; the others are dropped |
| MediaLibrary.FilteredAppend | src/components/admin/media-library.tsx:96-99 | filtering a concatenation filters each part, so the kept items stay in order |
| MediaLibrary.FilteredMembers | src/components/admin/media-library.tsx:96-99 | an item is kept exactly when it is in the list and matches |
| MediaLibrary.FilteredEmptyTerm | src/components/admin/media-library.tsx:96-99 | an empty term keeps every item, in order |
| MediaLibrary.Without | src/components/admin/media-library.tsx:105 | the filter keeps only items with another id |
| MediaLibrary.WithoutCounts | src/components/admin/media-library.tsx:105 | each item with another id is kept as often as it occurs; every one with that id is dropped |
| MediaLibrary.WithoutAppend | src/components/admin/media-library.tsx:105 | filtering a concatenation filters each part, so the kept items stay in order |
| MediaLibrary.Toggle | src/components/admin/media-library.tsx:103-110 | a selected item is removed, an unselected one appended |
| MediaLibrary.WithoutAbsent | src/components/admin/media-library.tsx:105 | filtering out an absent id changes nothing |
| MediaLibrary.WithoutSnoc | src/components/admin/media-library.tsx:105 | filtering out an item just appended gives the earlier selection without that id |
| MediaLibrary.WithoutKeepsDistinct | src/components/admin/media-library.tsx:105 | filtering keeps ids distinct |
| MediaLibrary.ToggleKeepsDistinct | src/components/admin/media-library.tsx:101-112 | toggling never produces two selected items with the same id |
| MediaLibrary.ToggleFlips | src/components/admin/media-library.tsx:101-112 | after a toggle the item is selected exactly when it was not |
| MediaLibrary.ToggleTwiceRestores | src/components/admin/media-library.tsx:103-111 | selecting and then deselecting an item restores the selection |
| MediaLibrary.HandleSelectStep | src/components/admin/media-library.tsx:101-119 | multiple mode toggles and reports the new selection; single mode reports the item and closes only in select mode |
| MediaLibrary.Library.constructor | src/components/admin/media-library.tsx:49-55 | no media, loading, empty search, the given selection |
| MediaLibrary.Library.FetchMedia | src/components/admin/media-library.tsx:62-94 | the nested loops store exactly `Flatten(projects)`; a failure keeps the media; loading ends |
| MediaLibrary.Library.FilteredMedia | src/components/admin/media-library.tsx:96-99 | the shown items are `Filtered(media, searchTerm)`: each matching stored item as often as it is stored, and no other |
| MediaLibrary.Library.SetSearchTerm | src/components/admin/media-library.tsx:155 | sets the term only |
| MediaLibrary.Library.HandleSelect | src/components/admin/media-library.tsx:101-119 | the new selection and the callbacks are those of `HandleSelectStep` |
| MediaLibrary.Library.Confirm | src/components/admin/media-library.tsx:299-309 | the "Select N" button works only in select mode with multiple selection and a non-empty selection; it reports the selection, then closes |
| GalleryData.FindByCode | src/components/gallery/project-card.tsx:17 | the translation whose language code matches, if any |
| GalleryData.FindByCodeIsFirst | src/components/gallery/project-card.tsx:17 | the translation found comes before every other one in that language |
| GalleryData.PickTranslation | src/components/gallery/project-card.tsx:17-18 | the matching translation, else the first; nothing only when there are none |
| GalleryData.PickTranslationChoice | src/components/gallery/project-modal.tsx:57-60 | the requested language wins when present, otherwise the first translation |
| ProjectCard.CardFor | src/components/gallery/project-card.tsx:13-25 | no card without a translation or an image; otherwise the picked translation, the first image, the shown materials and the "+k more" count |
| ProjectCard.ShownMaterials | src/components/gallery/project-card.tsx:66 | the first three materials, in order |
| ProjectCard.MoreCount | src/components/gallery/project-card.tsx:74-78 | "+k more" appears exactly beyond three materials, with k the rest |
| ProjectCard.MaterialsAccounted | src/components/gallery/project-card.tsx:66-78 | the shown materials and the "+k more" count add up to every material |
| ProjectModal.NextIndex | src/components/gallery/project-modal.tsx:65-67 | `(i + 1) mod n`, in range, with no value for no images |
| ProjectModal.PreviousIndex | src/components/gallery/project-modal.tsx:69-71 | `(i - 1 + n) mod n`, in range, with no value for no images |
| ProjectModal.NextPreviousInverse | src/components/gallery/project-modal.tsx:65-71 | next and previous undo each other |
| ProjectModal.ViewFor | src/components/gallery/project-modal.tsx:55-63 | nothing unless open with a translation; the picked translation and current image; navigation and counter only beyond one image; thumbnails beyond one; the description when truthy |
| ProjectModal.Viewer.constructor | src/components/gallery/project-modal.tsx:17 | the index starts at 0 |
| ProjectModal.Viewer.ProjectChanged | src/components/gallery/project-modal.tsx:20-22 | a new project resets the index to 0 |
| ProjectModal.Viewer.NextImage | src/components/gallery/project-modal.tsx:65-67 | the index steps forward cyclically and stays in range |
| ProjectModal.Viewer.PreviousImage | src/components/gallery/project-modal.tsx:69-71 | the index steps back cyclically and stays in range |
| ProjectModal.Viewer.SelectThumbnail | src/components/gallery/project-modal.tsx:163 | clicking thumbnail `k` shows image `k` |
| RichText.Paragraphs | src/app/api/admin/projects/translate-all/route.ts:106-112 | one paragraph per line, in order |
| RichText.BlockTexts | src/components/gallery/project-modal.tsx:85 | the text of each top-level block, in order |
| RichText.DocFromLinesText | src/components/gallery/project-modal.tsx:74-87 | a document rebuilt from lines shows exactly those lines joined by line breaks |
| RichText.ExtractTextOfTextNode | src/components/gallery/project-modal.tsx:78-80 | a text node shows its `text`, or `''` |
| RichText.ExtractAllAppend | src/components/gallery/project-modal.tsx:81-82 | children's texts run together with no separator |
| RichText.DescriptionTextCases | src/components/gallery/project-modal.tsx:74-77 | a string description shows unchanged; an absent one, or one without content, shows `''` |
| TranslateAll.FindTranslation | src/app/api/admin/projects/translate-all/route.ts:55-56 | the translation in that language, if any |
| TranslateAll.FindTranslationIsFirst | src/app/api/admin/projects/translate-all/route.ts:55-57 | the translation found comes before every other one in that language |
| TranslateAll.TargetCodes | src/app/api/admin/projects/translate-all/route.ts:30-32 | a code is listed exactly when some active non-default language has it (with TargetCodesAppend and TargetCodesOne: in registry order, one entry per such language) |
| TranslateAll.TargetLanguages | src/app/api/admin/projects/translate-all/route.ts:150 | a language is listed exactly when it is in the registry and its code is a target (with TargetLanguagesAppend and TargetLanguagesOne: in registry order, one entry per such registry entry) |
| TranslateAll.TargetCodesAppend | src/app/api/admin/projects/translate-all/route.ts:30-32 | the codes of two registries laid end to end are the codes of the first followed by those of the second |
| TranslateAll.TargetCodesOne | src/app/api/admin/projects/translate-all/route.ts:30-32 | one language gives its code once if it is active and not the default, and nothing otherwise |
| TranslateAll.TargetLanguagesAppend | src/app/api/admin/projects/translate-all/route.ts:150 | the targets among two registries laid end to end are those of the first followed by those of the second |
| TranslateAll.TargetLanguagesOne | src/app/api/admin/projects/translate-all/route.ts:150 | one language is kept once if its code is a target, and dropped otherwise |
| TranslateAll.DocFor | src/app/api/admin/projects/translate-all/route.ts:102-116 | a document exactly when the text is not blank, with one paragraph per non-blank line |
| TranslateAll.DocForText | src/app/api/admin/projects/translate-all/route.ts:102-116 | a rebuilt description shows the non-blank lines, in order |
| TranslateAll.DescriptionDocsLookup | src/app/api/admin/projects/translate-all/route.ts:102-116 | each language's rebuilt document comes from that language's answer, and is absent for a blank one |
| TranslateAll.MaterialListsLookup | src/app/api/admin/projects/translate-all/route.ts:135-142 | each language's list is its answer split on `,`, trimmed and without empty items |
| TranslateAll.MaterialsRoundTrip | src/app/api/admin/projects/translate-all/route.ts:128-142 | an untranslated answer of joined materials parses back to the same materials |
| TranslateAll.BuildDescriptionDocs | src/app/api/admin/projects/translate-all/route.ts:102-116 | the loop builds exactly `DescriptionDocs(resp)` |
| TranslateAll.BuildMaterialLists | src/app/api/admin/projects/translate-all/route.ts:135-142 | the loop builds exactly `MaterialLists(resp)` |
| TranslateAll.DescriptionDocs | src/app/api/admin/projects/translate-all/route.ts:102-116 | no more documents than answers; which codes get one is stated by DescriptionDocsLookup |
| TranslateAll.MaterialLists | src/app/api/admin/projects/translate-all/route.ts:135-142 | no more lists than answers, and a code gets a list only when it was answered |
| TranslateAll.FreshFor | src/app/api/admin/projects/translate-all/route.ts:72-147 | an empty title asks for no titles; an answered title request is used and an unanswered one gives none; no documents without a truthy description whose text is not blank, and with one, the answer's `DescriptionDocs`, or none when unanswered; no materials without default materials, and with them, the answer's `MaterialLists`, or none when unanswered |
| TranslateAll.UpdateFor | src/app/api/admin/projects/translate-all/route.ts:150-161 | each field is the fresh translation, else the existing one, else the default language's |
| TranslateAll.TargetUpdates | src/app/api/admin/projects/translate-all/route.ts:150-161 | one update per target language, in order |
| TranslateAll.Preserved | src/app/api/admin/projects/translate-all/route.ts:164-174 | an existing translation is kept when its language gets no update, and only then |
| TranslateAll.PreservedCounts | src/app/api/admin/projects/translate-all/route.ts:164-174 | each such translation is kept as often as it occurs; the others are dropped |
| TranslateAll.PreservedAppend | src/app/api/admin/projects/translate-all/route.ts:164-174 | preserving from a concatenation preserves from each part, so the order of the existing translations is kept |
| TranslateAll.BuildUpdates | src/app/api/admin/projects/translate-all/route.ts:150-174 | the two loops push exactly `Merge(...)` |
| TranslateAll.PreservedDistinct | src/app/api/admin/projects/translate-all/route.ts:164-174 | the preserved translations keep distinct languages |
| TranslateAll.UpdatesDistinct | src/app/api/admin/projects/translate-all/route.ts:150-161 | distinct targets give updates with distinct languages |
| TranslateAll.AppendDistinct | src/app/api/admin/projects/translate-all/route.ts:164-174 | two lists with separate languages and no repeats append without repeats |
| TranslateAll.MergeDistinct | src/app/api/admin/projects/translate-all/route.ts:150-174 | no language appears twice in `updates` |
| TranslateAll.MergeKeepsEverything | src/app/api/admin/projects/translate-all/route.ts:150-174 | every target gets its update, and every other existing translation is carried over |
| TranslateAll.Merge | src/app/api/admin/projects/translate-all/route.ts:150-174 | one update per target language, in target order, then only old translations in no target language |
| TranslateAll.ProcessProject | src/app/api/admin/projects/translate-all/route.ts:45-185 | a lookup that throws fails as `Project id: message`; otherwise a missing project, or one without a default translation, fails with its own message; a saved project has a default translation, passed the save, and its new translations are `Merge` of the targets, the old translations and `FreshFor`; a failed save is reported as `Project id: message` |
| TranslateAll.CaughtMessage | src/app/api/admin/projects/translate-all/route.ts:182-184 | the message of a thrown `Error`, and "Unknown error" for anything else |
| TranslateAll.SavedTranslations | src/app/api/admin/projects/translate-all/route.ts:150-177 | a saved project has one translation per language and one for every target language |
| TranslateAll.StepOutcome | src/app/api/admin/projects/translate-all/route.ts:177-185 | a saved project adds one success and its translations; a failed one adds one message and changes nothing |
| TranslateAll.Step | src/app/api/admin/projects/translate-all/route.ts:45-185 | one project keeps the store's ids, adds exactly one success or one error, and keeps earlier errors |
| TranslateAll.Run | src/app/api/admin/projects/translate-all/route.ts:44-186 | the run keeps the store's ids; successes and errors only grow |
| TranslateAll.RunCounts | src/app/api/admin/projects/translate-all/route.ts:45-194 | every requested project adds exactly one success or one error |
| TranslateAll.MissingProjectReported | src/app/api/admin/projects/translate-all/route.ts:47-52 | a missing project is reported and processing continues with the store untouched |
| TranslateAll.ThrowingLookupReported | src/app/api/admin/projects/translate-all/route.ts:45-52 | a lookup that throws adds one failure with its message and leaves the store alone |
| TranslateAll.ProcessOne | src/app/api/admin/projects/translate-all/route.ts:45-185 | one pass of the loop: the outcome is `ProcessProject`, and only a saved project's translations change |
| TranslateAll.ProcessNext | src/app/api/admin/projects/translate-all/route.ts:45-185 | one pass of the loop ends in the state and counters of `Step`, with `failed` counting the errors |
| TranslateAll.ProcessAll | src/app/api/admin/projects/translate-all/route.ts:44-186 | the loop ends in the state and error list of `Run`; `failed` counts the errors and `success + failed` is the number of ids |
| TranslateAll.TranslateAllProjects | src/app/api/admin/projects/translate-all/route.ts:8-213 | errors thrown by `requireAdmin`, `req.json()` and the language query, and the 400 cases, are handled in the route's order and change nothing; with no fault, a non-empty id list, a default language and a target language the call completes; then `success + failed == total`, `\|errors\| == failed`, and the store and counters are those of `Run` |
| TranslateAll.Rejection | src/app/api/admin/projects/translate-all/route.ts:197-211 | an `AuthError` keeps its status and message; any other `Error` gives 500 with its message, a non-`Error` 500 with "Failed to translate projects" |
| ContactForm.MatchesEmailShape | src/components/contact-form.tsx:54 | a matching address has the shape `A@B.C` |
| ContactForm.MatchesEmail | src/components/contact-form.tsx:54 | a matching address has an `@` after its first character and at least three characters after it |
| ContactForm.ShapeMatchesEmail | src/components/contact-form.tsx:54 | every address of that shape matches |
| ContactForm.MatchesEmailIffShape | src/components/contact-form.tsx:54 | the pattern accepts exactly `A@B.C` with A, B and C non-empty, without white space or `@` |
| ContactForm.NameError | src/components/contact-form.tsx:43-49 | required, then too short, then too long, on the trimmed name |
| ContactForm.EmailError | src/components/contact-form.tsx:52-58 | required, then the pattern on the untrimmed address, then the 254 limit |
| ContactForm.ProjectTypeError | src/components/contact-form.tsx:61-63 | the project type must not be blank |
| ContactForm.MessageError | src/components/contact-form.tsx:66-72 | required, then under 10, then over 2000, on the trimmed message |
| ContactForm.PrivacyError | src/components/contact-form.tsx:75-77 | the privacy policy must be accepted |
| ContactForm.Validate | src/components/contact-form.tsx:39-81 | one message for exactly the fields whose rule fails; marketing consent never has one |
| ContactForm.ErrorOf | src/components/contact-form.tsx:39-77 | a field has no message exactly when its rule holds: a name of 2 to 100 trimmed characters, a non-blank matching address of at most 254 characters, a non-blank project type, a message of 10 to 2000 trimmed characters, an accepted privacy policy; marketing consent never has one |
| ContactForm.NoErrorsAcceptable | src/components/contact-form.tsx:39-81 | no message for any field means the form is acceptable |
| ContactForm.AcceptableNoErrors | src/components/contact-form.tsx:39-81 | an acceptable form has no message for any field |
| ContactForm.ValidateIffAcceptable | src/components/contact-form.tsx:80 | `validateForm()` is true exactly for the acceptable forms |
| ContactForm.PrivacyRequired | src/components/contact-form.tsx:75-77 | without the privacy consent a form is always refused |
| ContactForm.RefusalMessage | src/components/contact-form.tsx:117 | the server's error when it is a non-empty string; a missing or empty one gives "An unexpected error occurred. Please try again." |
| ContactForm.Form.constructor | src/components/contact-form.tsx:26-37 | empty fields, idle, no errors |
| ContactForm.Form.ChangeText | src/components/contact-form.tsx:128-134 | sets only that field and clears only its error |
| ContactForm.Form.ChangeCheck | src/components/contact-form.tsx:128-134 | sets only that box and clears only its error |
| ContactForm.Form.Submit | src/components/contact-form.tsx:83-126 | sends exactly valid forms; an invalid one shows its errors; success resets every field and clears errors; a refusal or network error shows its message |
| ContactForm.Form.SubmitDisabled | src/components/contact-form.tsx:333 | the send button is disabled exactly while sending or until the privacy policy is accepted |
| ContactForm.Form.ResetStatus | src/components/contact-form.tsx:154 | "Send another message" and "Try again" (line 186) set the status back to idle and change nothing else |
| ProjectForm.Apply | src/components/admin/project-form.tsx:118 | `{ ...t, [field]: value }` changes that field only |
| ProjectForm.ChangeTranslation | src/components/admin/project-form.tsx:114-122 | only the translation with that language changes; length and others unchanged |
| ProjectForm.ChangeUnknownLanguage | src/components/admin/project-form.tsx:114-122 | an edit for a missing language changes nothing |
| ProjectForm.ChangeTwiceLastWins | src/components/admin/project-form.tsx:114-122 | the second edit of a field wins |
| ProjectForm.ChangeMaterials | src/components/admin/project-form.tsx:124-127 | that language's materials become the text split on `,`, trimmed and without empty items, its other fields kept; every other translation is unchanged |
| ProjectForm.MaterialsChangeItems | src/components/admin/project-form.tsx:125 | every parsed material is non-empty, trimmed and free of commas |
| ProjectForm.MaterialsFieldRoundTrip | src/components/admin/project-form.tsx:125 | re-entering the shown `", "` text gives the same materials when they are non-empty, trimmed and comma-free |
| ProjectForm.Titled | src/components/admin/project-form.tsx:136 | a translation is kept when its title is not blank, and only then |
| ProjectForm.TitledCounts | src/components/admin/project-form.tsx:136 | each such translation is kept as often as it occurs; the others are dropped |
| ProjectForm.TitledAppend | src/components/admin/project-form.tsx:136 | filtering a concatenation filters each part, so the kept translations stay in order |
| ProjectForm.RequestImageOf | src/components/admin/project-form.tsx:151-156 | an image without its id |
| ProjectForm.BuildRequest | src/components/admin/project-form.tsx:136-157 | fails exactly when no title is non-blank; otherwise `Titled(ts)`, whose order TitledAppend states, the flags, and each image without its id at its own position |
| ProjectForm.EndpointFor | src/components/admin/project-form.tsx:159-160 | PUT `/api/projects/{id}` when editing, POST `/api/projects` when creating |
| ProjectForm.LanguageName | src/components/admin/project-form.tsx:183-186 | the name of the first language with that id when it is non-empty; an unknown id or an empty name gives "Unknown Language" |
| ProjectForm.RefusalMessage | src/components/admin/project-form.tsx:172 | the server's error when it is a non-empty string; a missing or empty one gives "Failed to save project" |
| ProjectForm.Editor.constructor | src/components/admin/project-form.tsx:60-112 | an existing project is copied in; a new one gets two empty translations and content type 1 |
| ProjectForm.Editor.HandleTranslationChange | src/components/admin/project-form.tsx:114-122 | the translations become `ChangeTranslation(...)`, nothing else changes |
| ProjectForm.Editor.HandleMaterialsChange | src/components/admin/project-form.tsx:124-127 | the parsed list goes through HandleTranslationChange, so the translations become `ChangeMaterials(...)` and nothing else changes |
| ProjectForm.Editor.HandleImagesChange | src/components/admin/project-form.tsx:299 | the uploader's list becomes the form's images and nothing else changes |
| ProjectForm.Editor.Submit | src/components/admin/project-form.tsx:129-181 | the request sent is `BuildRequest` at `EndpointFor`; without a title nothing is sent; `onSave` runs only on success; each failure shows its message |
| ContentForm.InitialForm | src/components/admin/content-form.tsx:29-40 | the given data, else one empty translation per language with a document of one empty paragraph |
| ContentForm.InitialCoversLanguages | src/components/admin/content-form.tsx:32-39 | every language finds its translation in a new form |
| ContentForm.ActiveLanguageFor | src/components/admin/content-form.tsx:42-44 | the default's code, else the first language's, else `'nl'` |
| ContentForm.ActiveLanguageIsKnown | src/components/admin/content-form.tsx:42-44 | the chosen code is a language's, or `'nl'` |
| ContentForm.CurrentTranslation | src/components/admin/content-form.tsx:55-58 | none exactly when no translation is in the active language; otherwise one in the active language, the first such as CurrentTranslationIsFirst states |
| ContentForm.CurrentTranslationIsFirst | src/components/admin/content-form.tsx:55-58 | the translation found comes before every other one in the active language |
| ContentForm.Apply | src/components/admin/content-form.tsx:113 | `{ ...t, [field]: value }` |
| ContentForm.UpdateTranslation | src/components/admin/content-form.tsx:105-118 | only translations in the active language change; nothing changes without one |
| ContentForm.UpdateThenCurrent | src/components/admin/content-form.tsx:105-118 | after a title edit the current translation has the new title |
| ContentForm.SlugError | src/components/admin/content-form.tsx:124-130 | one slug message: required, then format, then availability |
| ContentForm.AddErrors | src/components/admin/content-form.tsx:133-144 | an unknown language adds nothing; a known one gets its title message for a blank title and its content message for missing or blank content; no other key is added and every other entry keeps its value |
| ContentForm.AddErrorsEmpty | src/components/admin/content-form.tsx:133-144 | one pass leaves no message exactly when there was none and the translation is complete |
| ContentForm.TranslationErrors | src/components/admin/content-form.tsx:133-144 | earlier keys stay; every added key starts with `translation_`; a key outside that space keeps its value |
| ContentForm.FormErrors | src/components/admin/content-form.tsx:120-147 | the slug message sits at `slug` exactly when there is one; every other key is a translation key |
| ContentForm.PutMessages | src/components/admin/content-form.tsx:137-143 | the title and content messages are set when due; no other key is added or changed |
| ContentForm.ContentKey | src/components/admin/content-form.tsx:138-142 | the content key is a translation key and differs from the title key of the same code |
| ContentForm.TranslationErrorsEmpty | src/components/admin/content-form.tsx:133-144 | no message exactly when the start was empty and every translation is complete |
| ContentForm.FormErrorsEmptyIff | src/components/admin/content-form.tsx:120-148 | the form is valid exactly when the slug passes and every known translation has a title and content |
| ContentForm.ShownSuggestions | src/components/admin/content-form.tsx:222-226 | the first three suggestions given, or all of them when there are at most three; none without a validation answer or suggestions |
| ContentForm.Editor.constructor | src/components/admin/content-form.tsx:29-52 | the initial form and the active language, with no errors and no slug answer |
| ContentForm.Editor.UpdateSlug | src/components/admin/content-form.tsx:94-96 | sets the slug only |
| ContentForm.Editor.SetActiveLanguage | src/components/admin/content-form.tsx:270 | sets the active language only |
| ContentForm.Editor.UpdateTranslationField | src/components/admin/content-form.tsx:105-118 | the form becomes `UpdateTranslation(...)` |
| ContentForm.Editor.GenerateSlugFromTitle | src/components/admin/content-form.tsx:98-103 | with a titled current translation, the slug becomes the generated one; otherwise nothing changes |
| ContentForm.Editor.CheckSlug | src/components/admin/content-form.tsx:61-92 | a slug under two characters is not checked and clears the answer; otherwise the request carries `excludeId` only in edit mode |
| ContentForm.Editor.CollectErrors | src/components/admin/content-form.tsx:133-144 | the `forEach` builds exactly `TranslationErrors(...)` |
| ContentForm.Editor.ValidateForm | src/components/admin/content-form.tsx:120-148 | the errors are `FormErrors(...)`, and the result is true exactly when there are none |
| ContentForm.Editor.HandleSave | src/components/admin/content-form.tsx:150-160 | `onSave` gets the form exactly when it is valid |
| ContentForm.Editor.HandlePreview | src/components/admin/content-form.tsx:162-166 | `onPreview` is called, with the form and the active language, exactly when the page passed one |
| LanguageData.FindDefaultIsFirst | src/components/admin/content-form.tsx:43 | `find(l => l.isDefault)` is the first default, and nothing when there is none |
| LanguageData.FindDefault | src/components/admin/content-form.tsx:43 | none exactly when no language is the default; otherwise a default language of the list |
| LanguageData.FindById | src/components/admin/project-form.tsx:184 | the language with that id, if any |
| LanguageData.FindByIdIsFirst | src/components/admin/project-form.tsx:184 | the language found is the first one with that id |
| LanguagesRoute.StatusError | src/app/api/admin/languages/route.ts:33-45 | 401 and 403 keep their status as "Unauthorized"; anything else is 500 |
| LanguagesRoute.ClearDefaults | src/app/api/admin/languages/route.ts:67-70 | every row loses its default flag, nothing else changes |
| LanguagesRoute.BeforeCreate | src/app/api/admin/languages/route.ts:66-70 | a new default clears every row's default flag and nothing else; otherwise the rows are unchanged |
| LanguagesRoute.NewRow | src/app/api/admin/languages/route.ts:73-80 | `isDefault \|\| false`, and `isActive` true unless given |
| LanguagesRoute.NewDefaultIsOnlyDefault | src/app/api/admin/languages/route.ts:66-80 | after a create with `isDefault` the new row is the only default |
| LanguagesRoute.CreateWithoutDefaultKeepsRows | src/app/api/admin/languages/route.ts:66-80 | a create without `isDefault` keeps every row and adds a non-default |
| LanguagesRoute.CreateKeepsAtMostOneDefault | src/app/api/admin/languages/route.ts:66-80 | a create keeps at most one default |
| LanguagesRoute.FailedCreateLeavesNoDefault | src/app/api/admin/languages/route.ts:66-90 | a create with `isDefault` that then fails leaves no default at all |
| LanguagesRoute.ListedBeforeTotal | src/app/api/admin/languages/route.ts:13-19 | the listing order is total |
| LanguagesRoute.ListedBefore | src/app/api/admin/languages/route.ts:13-19 | the default comes first, then active rows, then ascending code among rows with the same flags |
| LanguagesRoute.ListedBeforeTransitive | src/app/api/admin/languages/route.ts:13-19 | the listing order is transitive |
| LanguagesRoute.ListedBeforeAntisymmetric | src/app/api/admin/languages/route.ts:13-19 | two rows each before the other share their flags and code |
| LanguagesRoute.Insert | src/app/api/admin/languages/route.ts:13-19 | insertion keeps every row |
| LanguagesRoute.InsertListed | src/app/api/admin/languages/route.ts:13-19 | inserting into an ordered listing keeps it ordered |
| LanguagesRoute.SortLanguages | src/app/api/admin/languages/route.ts:13-19 | the listing holds exactly the stored rows, with their multiplicities |
| LanguagesRoute.SortLanguagesListed | src/app/api/admin/languages/route.ts:13-19 | the listing is ordered by default, then active, then code, and holds exactly the stored rows |
| LanguagesRoute.Registry.constructor | src/app/api/admin/languages/route.ts:13 | the table holds the given rows |
| LanguagesRoute.Registry.Post | src/app/api/admin/languages/route.ts:51-102 | auth, bad body and missing fields change nothing; defaults are cleared before the insert; a duplicate is 409 and a fault 500, both after clearing; a create appends the new row and keeps at most one default |
| LanguagesRoute.Registry.Get | src/app/api/admin/languages/route.ts:9-46 | the rows in listing order, or the error response |
| Analytics.OrNull | src/lib/analytics-service.ts:52-53 | `x \|\| null` |
| Analytics.Recorded | src/lib/analytics-service.ts:47-58 | the row stored: `pageview` by default, falsy referrer and agent as null, metadata `{}` by default |
| Analytics.PageViews | src/lib/analytics-service.ts:117-122 | an event is kept when it is a page view inside the range, both ends included, and only then |
| Analytics.PageViewsCounts | src/lib/analytics-service.ts:117-122 | each such event is kept as often as it occurs; the others are dropped |
| Analytics.PageViewsAppend | src/lib/analytics-service.ts:117-122 | selecting from a concatenation selects from each part, so table order is kept |
| Analytics.Sessions | src/lib/analytics-service.ts:125-132 | exactly the session ids that occur |
| Analytics.OccursIffPositive | src/lib/analytics-service.ts:187-191 | a key occurs exactly when its count is positive |
| Analytics.CountOfAt | src/lib/analytics-service.ts:190 | with distinct keys, `map.get` of an entry's key is its count |
| Analytics.Bump | src/lib/analytics-service.ts:190 | `map.set(k, (map.get(k) \|\| 0) + 1)` adds `k` to the keys |
| Analytics.BumpCountsKey | src/lib/analytics-service.ts:190 | bumping adds one to the key's count |
| Analytics.BumpCountsOther | src/lib/analytics-service.ts:190 | bumping leaves the other counts alone |
| Analytics.BumpDistinct | src/lib/analytics-service.ts:190 | bumping keeps keys distinct |
| Analytics.GroupDistinct | src/lib/analytics-service.ts:187-191 | a grouping has one entry per key |
| Analytics.GroupCount | src/lib/analytics-service.ts:187-191 | each count is the number of occurrences |
| Analytics.GroupKeys | src/lib/analytics-service.ts:187-191 | the keys are exactly those that occur |
| Analytics.GroupCounts | src/lib/analytics-service.ts:187-191 | distinct keys, each with its number of occurrences, exactly the keys that occur |
| Analytics.GroupEntries | src/lib/analytics-service.ts:187-191 | each entry counts its key's occurrences, at least one |
| Analytics.InsertDesc | src/lib/analytics-service.ts:195 | insertion keeps every element |
| Analytics.SortDesc | src/lib/analytics-service.ts:195 | the sort keeps every element |
| Analytics.InsertDescOrdered | src/lib/analytics-service.ts:195 | insertion keeps a descending list descending |
| Analytics.InsertDescStrict | src/lib/analytics-service.ts:195 | insertion of a new key keeps a strictly descending list strict |
| Analytics.SortDescOrdered | src/lib/analytics-service.ts:195 | the sort is descending |
| Analytics.SortDescStrict | src/lib/analytics-service.ts:195 | with distinct keys the sort is strictly descending |
| Analytics.Take | src/lib/analytics-service.ts:196 | `slice(0, n)`: a prefix of at most `n` |
| Analytics.DayKeys | src/lib/analytics-service.ts:189 | the day of each page view, in order |
| Analytics.ViewsByDayCounts | src/lib/analytics-service.ts:187-196 | at most 30 entries, strictly latest first, each a day with its number of page views |
| Analytics.ViewsByDayKeepsLatest | src/lib/analytics-service.ts:193-196 | a day with views is listed, or thirty later days are |
| Analytics.ViewsByDay | src/lib/analytics-service.ts:187-196 | at most thirty days, each a day with its count |
| Analytics.Recent | src/lib/analytics-service.ts:158-173 | `min(20, n)` rows for `n` page views |
| Analytics.RecentIsLatest | src/lib/analytics-service.ts:158-173 | the rows are latest first, each row is the fields of one of the views, no view gives more rows than it occurs, and a view left out is no later than the twentieth row |
| Analytics.RecentRowsCounted | src/lib/analytics-service.ts:158-173 | the rows show no view more often than it occurs |
| Analytics.RowsSorted | src/lib/analytics-service.ts:169-171 | sorting the views reorders their rows and drops none |
| Analytics.ViewsByPage | src/lib/analytics-service.ts:199-218 | every path with its count, each once per entry of the grouping |
| Analytics.PopularPages | src/lib/analytics-service.ts:135-155 | at most ten entries, the first ones of ViewsByPage |
| Analytics.PopularPagesCounts | src/lib/analytics-service.ts:135-155 | ten paths, or every path when there are fewer, each once with its number of views, most viewed first |
| Analytics.PopularPagesCutoff | src/lib/analytics-service.ts:135-155 | a path left out has no more views than the tenth one listed |
| Analytics.StatsOf | src/lib/analytics-service.ts:115-227 | the counts and lists are those of `PageViews` over the range: its length, its sessions, `PopularPages`, `Recent`, `ViewsByDay` and `ViewsByPage`; unique visitors never exceed page views, and no page views means empty stats |
| Analytics.Store.constructor | src/lib/analytics-service.ts:1 | the tables and the model flag as given |
| Analytics.Store.TrackEvent | src/lib/analytics-service.ts:19-73 | one row is added only for a consenting session when the model and table exist; every failure is swallowed |
| Analytics.Store.CountByDay | src/lib/analytics-service.ts:187-191 | the `forEach` builds exactly `Group(DayKeys(views))` |
| Analytics.Store.GetStats | src/lib/analytics-service.ts:92-233 | empty stats without the model or on a query error; otherwise `StatsOf` over the last 30 days by default |
| Analytics.Store.DeleteRange | src/lib/analytics-service.ts:284-304 | keeps `Outside(...)` of the rows, all time up to now by default, and returns `InRangeCount`, the number of rows in the range |
| Analytics.Store.DeleteOlderThan | src/lib/analytics-service.ts:309-325 | keeps `NotBefore(...)` of the rows, a year by default, and returns `OlderCount`, the number of rows older than the cutoff |
| Analytics.Outside | src/lib/analytics-service.ts:297-301 | a row is kept when it lies outside the range, and only then |
| Analytics.OutsideCounts | src/lib/analytics-service.ts:297-301 | each such row is kept as often as it occurs; the others are dropped |
| Analytics.OutsideAppend | src/lib/analytics-service.ts:297-301 | deleting from a concatenation deletes from each part, so table order is kept |
| Analytics.OutsideCount | src/lib/analytics-service.ts:297-304 | the count returned is the number of rows inside the range |
| Analytics.NotBefore | src/lib/analytics-service.ts:318-322 | a row is kept when it is at or after the cutoff, and only then |
| Analytics.NotBeforeCounts | src/lib/analytics-service.ts:318-322 | each such row is kept as often as it occurs; the older ones are dropped |
| Analytics.NotBeforeAppend | src/lib/analytics-service.ts:318-322 | deleting from a concatenation deletes from each part, so table order is kept |
| Analytics.NotBeforeCount | src/lib/analytics-service.ts:318-324 | the count returned is the number of rows strictly older than the cutoff |
| AdminNavigation.IsActive | src/components/admin/admin-navigation.tsx:39-44 | the dashboard only on `/admin` itself, any other link on every path it starts |
| AdminNavigation.LinkFor | src/components/admin/admin-navigation.tsx:29-44 | an index into the links; 0, the dashboard, exactly on `/admin` |
| AdminNavigation.PrefixIsEnough | src/components/admin/admin-navigation.tsx:43 | `/admin/projectsX` makes `/admin/projects` active |
| AdminNavigation.DashboardOnlyExact | src/components/admin/admin-navigation.tsx:40-42 | the dashboard is not active on its sub-pages |
| AdminNavigation.ActiveIsLinkFor | src/components/admin/admin-navigation.tsx:29-44 | an active link is the one the path names |
| AdminNavigation.AtMostOneActive | src/components/admin/admin-navigation.tsx:29-44 | at most one of the seven links is highlighted |
| AdminNavigation.MenuAfter | src/components/admin/admin-navigation.tsx:27-28 | the toggle flips the menu; a mobile link or the mobile sign-out closes it; the desktop sign-out leaves it as it was |
| AdminNavigation.ToggleTwiceRestores | src/components/admin/admin-navigation.tsx:27 | two toggles restore the menu |
| AdminNavigation.Navigation.constructor | src/components/admin/admin-navigation.tsx:23 | the menu starts closed |
| AdminNavigation.Navigation.Handle | src/components/admin/admin-navigation.tsx:93-167 | the menu becomes `MenuAfter`; sign-out is requested exactly by the desktop or the mobile sign-out button; nothing else changes |
| ProjectList.BuildParams | src/components/admin/project-list.tsx:26-31 | the `append` calls build exactly `ExpectedParams` |
| ProjectList.ExpectedParamsShape | src/components/admin/project-list.tsx:26-31 | `search` only when non-empty, the filters only when not `all`, and `limit=50` always, last |
| ProjectList.ProjectTitle | src/components/admin/project-list.tsx:85-89 | the first title, else "Untitled Project" |
| ProjectList.List.constructor | src/components/admin/project-list.tsx:16-21 | no projects, loading, empty search, both filters `all` |
| ProjectList.List.FetchProjects | src/components/admin/project-list.tsx:23-45 | sends the expected parameters; stores the projects or the error; loading always ends |
| ProjectList.List.ChangeSearch | src/components/admin/project-list.tsx:130 | the search text changes, and the effect on the three filters fetches the list again with it and the other filters and applies the outcome |
| ProjectList.List.ChangePublishedFilter | src/components/admin/project-list.tsx:135 | the published filter changes, and the effect on the three filters fetches the list again with it |
| ProjectList.List.ChangeFeaturedFilter | src/components/admin/project-list.tsx:143 | the featured filter changes, and the effect on the three filters fetches the list again with it |
| AddProjectImages.ImageFor | scripts/add-project-images.ts:49-58 | the project at position `i` gets placeholder `i mod 4` with order 0 |
| AddProjectImages.PlannedRows | scripts/add-project-images.ts:39-62 | every written row belongs to an imageless project, and every imageless project gets its row |
| AddProjectImages.Planned | scripts/add-project-images.ts:39-62 | no more rows than projects, each at order 0 |
| AddProjectImages.SkippedGetNothing | scripts/add-project-images.ts:43-46 | a project that has images gets none |
| AddProjectImages.OneImageEach | scripts/add-project-images.ts:39-62 | each imageless project gets exactly one image |
| AddProjectImages.Database.constructor | scripts/add-project-images.ts:1 | the image table, connected |
| AddProjectImages.Database.AddProjectImages | scripts/add-project-images.ts:3-72 | rows for the projects up to a failing insert, in order; a failed query writes nothing; the connection is always closed |
| ThemeContext.Toggled | src/contexts/theme-context.tsx:56 | light becomes dark, anything else light |
| ThemeContext.ToggleTwice | src/contexts/theme-context.tsx:55-59 | two toggles restore light or dark |
| ThemeContext.ToggleUnknown | src/contexts/theme-context.tsx:55-57 | an unchecked saved value becomes light, then dark |
| ThemeContext.InitialTheme | src/contexts/theme-context.tsx:24-26 | the saved value when non-empty, else the system preference |
| ThemeContext.Provider.constructor | src/contexts/theme-context.tsx:17-18 | light and not mounted |
| ThemeContext.Provider.InitTheme | src/contexts/theme-context.tsx:21-40 | the initial theme and its class, or light on a failure; mounted afterwards |
| ThemeContext.Provider.SetTheme | src/contexts/theme-context.tsx:43-53 | the theme is set; it is saved and the class set unless storage fails |
| ThemeContext.Provider.ToggleTheme | src/contexts/theme-context.tsx:55-59 | sets the toggled theme |
| ThemeContext.UseTheme | src/contexts/theme-context.tsx:75-81 | fails outside a provider with its message, else returns the context |
| Strings.TrimStart | src/components/contact-form.tsx:43 | removes exactly the leading white space |
| Strings.TrimEnd | src/components/contact-form.tsx:43 | removes exactly the trailing white space |
| Strings.TrimEmptyIffAllSpace | src/components/contact-form.tsx:43 | `s.trim()` is falsy exactly when `s` is all white space |
| Strings.TrimRemovesOnlyEnds | src/components/admin/project-form.tsx:125 | what `trim` leaves is a slice of the input with only white space before and after it |
| Strings.Trim | src/components/admin/project-form.tsx:125 | no white space is left at either end; TrimRemovesOnlyEnds states that only the ends are removed |
| Strings.TrimOfTrimmed | src/components/admin/project-form.tsx:125 | trimming a trimmed string changes nothing |
| Strings.TrimLeadingBlanks | src/components/admin/project-form.tsx:125 | leading blanks before a trimmed core trim away |
| Strings.IndexOf | src/app/api/admin/projects/translate-all/route.ts:137 | the first position of the separator |
| Strings.Split | src/app/api/admin/projects/translate-all/route.ts:137 | at least one piece, none holding the separator |
| Strings.JoinSplit | src/app/api/admin/projects/translate-all/route.ts:137 | joining a split restores the input |
| Strings.SplitJoin | src/app/api/admin/projects/translate-all/route.ts:128-137 | splitting a join of separator-free pieces gives the pieces |
| Strings.Join | src/components/admin/project-form.tsx:283 | a join of one or more parts starts with the first part |
| Strings.TrimAll | src/app/api/admin/projects/translate-all/route.ts:138 | each piece trimmed |
| Strings.NonEmptyOnly | src/app/api/admin/projects/translate-all/route.ts:139 | only non-empty pieces, each taken from the input |
| Strings.NonEmptyOnlyCounts | src/app/api/admin/projects/translate-all/route.ts:139 | each non-empty piece is kept as often as it occurs; empty ones are dropped |
| Strings.NonEmptyOnlyAppend | src/app/api/admin/projects/translate-all/route.ts:139 | filtering a concatenation filters each part, so the pieces stay in order |
| Strings.ParseListItems | src/app/api/admin/projects/translate-all/route.ts:137-140 | parsed items are non-empty, trimmed and separator-free |
| Strings.ParseList | src/components/admin/project-form.tsx:125 | every item is non-empty and is one of the trimmed pieces of the split |
| Strings.ParseListOfJoin | src/app/api/admin/projects/translate-all/route.ts:128-140 | parsing a list joined with `", "` gives it back |
| Strings.ParseEmpty | src/components/admin/project-form.tsx:125 | an empty field parses to no items |
| Strings.SplitPadded | src/app/api/admin/projects/translate-all/route.ts:128-137 | a `", "` join splits at the commas into the items with a leading blank |
| Strings.ParseListStable | src/components/admin/project-form.tsx:125 | re-parsing what a parsed list shows gives the same list |
| Strings.NonBlank | src/app/api/admin/projects/translate-all/route.ts:105 | only lines that are not blank, each taken from the input |
| Strings.NonBlankCounts | src/app/api/admin/projects/translate-all/route.ts:105 | each line that is not blank is kept as often as it occurs; blank ones are dropped |
| Strings.NonBlankAppend | src/app/api/admin/projects/translate-all/route.ts:105 | filtering a concatenation filters each part, so the lines stay in order |
| Strings.NonBlankLinesOfText | src/app/api/admin/projects/translate-all/route.ts:102-105 | a text with no non-blank line is blank |
| Strings.IncludesIffOccurs | src/components/admin/media-library.tsx:97-98 | `includes` holds exactly when the term occurs somewhere |
| Strings.Includes | src/components/admin/media-library.tsx:97-98 | the empty term is included in every string, and an included term is no longer than the string |
| Strings.IncludesEmpty | src/components/admin/media-library.tsx:97-98 | every string includes the empty term |
| Strings.ToLower | src/components/admin/media-library.tsx:97-98 | ASCII lower-casing, position by position |
| Strings.NatToString | src/components/page-builder/component-editor.tsx:58 | decimal digits that denote `n`, with no leading zero |
| Strings.IntToString | src/components/admin/media-library.tsx:74 | a leading `-` exactly for negative numbers, then decimal digits that denote the magnitude, with no leading zero |
| Strings.LastSegment | src/components/admin/media-library.tsx:78 | the piece holds no separator |
| Strings.LastSegmentIsSuffix | src/components/admin/media-library.tsx:78 | the last segment is the suffix after the last separator: a separator sits right before it when the string holds one, and it is the whole string otherwise |
| Strings.LexLeTotal | src/app/api/admin/languages/route.ts:17 | the code order is total |
| Strings.LexLeTransitive | src/app/api/admin/languages/route.ts:17 | the code order is transitive |
| Strings.LexLeAntisymmetric | src/app/api/admin/languages/route.ts:17 | the code order is antisymmetric |

## Left out

- The network, Prisma, `requireAdmin`, the translation provider and the browser's storage and media queries are never performed. A call the model covers is a function value, or a parameter for the outcome it had. A failure of any other call is not modelled: only the failure parameters named above exist.
- `ContentValidator.isValidSlug`, `ContentValidator.extractPlainText` and `ContentService.generateSlug` are function parameters; `src/lib/content-validation.ts` and `src/lib/content-service.ts` are not part of this model.
- The language coverage that GET `/api/admin/languages` adds to each row is left out: `TranslationService` is not part of this model.
- Timers are left out: the 250 ms pauses between provider calls, the 500 ms slug-check debounce and `useEffect` scheduling. Each effect is a method the caller runs.
- Generated ids (`Date.now`, `Math.random`) and the clock are parameters; the page builder asks for a fresh id.
- `exportAnalyticsData` (src/lib/analytics-service.ts:238-279) is left out: it only maps rows to JSON with `toISOString`, which is date formatting.
- Analytics day keys are day numbers rather than `YYYY-MM-DD` strings. `localeCompare` on those keys is then the number order, on which it agrees.
- Analytics.RecentIsLatest: the database's order among rows with the same timestamp is not modelled; the stable sort stands for it.
- Analytics.PopularPagesCounts: a tie between two paths' counts is broken by table order here, which Prisma does not promise.
- The project list's `handleToggleFeatured` and `handleTogglePublished` (src/components/admin/project-list.tsx:51-83) are left out: each is one request followed by a refetch.
- The project form's setters for the content type, `featured` and `published` are plain assignments and are left out.
- ProjectForm.Editor.constructor: a non-string description is `JSON.stringify`'d in the source; the model assumes every description is already a string.
- Lengths are Dafny sequence lengths, which equal JavaScript's UTF-16 lengths only for text without astral characters.
- Strings.ToLower: only ASCII letters are lower-cased; Unicode case mapping is left out.
- Strings.LexLeTotal and the other order lemmas: they model `code: 'asc'` as code-unit order, not a database collation.
- Setting an error field to `undefined` (contact form, `handleChange`) is modelled as removing the key, which is how `Object.keys` counts it.
- Outside the translate-all route, only `Error` objects are thrown in the model; a thrown non-`Error` value and its "An error occurred" message are left out.
- Integer-like keys of a JavaScript object sort before the others; the model keeps every key in insertion order. They arise only when a plain string is spread into a language map.
- The `images` and `padding` values of a component's data are opaque; their inner fields are not modelled.
- ProjectModal.Viewer.NextImage and ProjectModal.Viewer.PreviousImage: each requires a project, because without one the source reads a variable before its declaration and throws.
- ComponentRenderer.ContainerStyle: a truthy colour that is not a string (a number, an object) is handed to the style by the source; the model's colours are strings only and such a value falls back to `#ffffff` / `#000000`.
- ComponentRenderer.FeaturedLimit: `slice` and `>` coerce a non-empty string (`"3"` to 3) and an object (to NaN, so nothing is listed and "View All" is hidden); the model does not parse strings or model NaN, and gives 8 for both.
- ComponentRenderer.Featured: inherits the fallback of ComponentRenderer.FeaturedLimit for a string or object `maxItems`.
- ComponentRenderer.SpacerHeight: a truthy height that is not a number (the string `"120"`, which the template literal draws as `120px`) is used by the source; the model gives 60. The editor only ever stores a number (see ComponentEditor.SpacerHeightInput).
- ComponentRenderer.Resolve: the last fallback is `Object.values(text)[0]`, the first value even when it is empty; an empty first value is not skipped.
- MediaLibrary.FormatFileSize: only the zero case is modelled; other sizes use floating point and `Math.log`.
- PageBuilder.DefaultComponentData: the placeholder texts and other fields of the hero, text, image and call-to-action defaults are not stated; only their colours and the absent padding are.
- JSX markup, class names other than the few modelled mappings, keyboard listeners and body-overflow handling are presentation and are left out. The arrow-key listener (src/components/gallery/project-modal.tsx:24-39) is registered with dependencies `[isOpen, onClose]` only, so it keeps the `nextImage` / `previousImage` of the render that registered it, with that render's image count; the model's NextImage and PreviousImage are the arrow buttons only.
- The featured-projects fetch inside a gallery component (src/components/page-builder/component-renderer.tsx:234-243) is a parameter: the list that arrived.

## Findings

| source | as written | input that shows it | evidently intended | confidence | as-written member | corrected member |
|---|---|---|---|---|---|---|
| src/components/page-builder/page-builder.tsx:55-61, 169-171 | `updateComponent` updates the list but not `selectedComponent`, and the editor's `onChange` goes on editing the old copy | a spacer with `{}` data: set `height`, then `backgroundColor`; the list ends with only `backgroundColor` | each edit builds on the previous one | not executed | ComponentEditor.SecondEditLosesFirstAsWritten | ComponentEditor.EditsAccumulate |
| src/components/page-builder/component-editor.tsx:110-115 | the editor never passes `allowMultiple` to the media library, so `handleSelect` takes the single-selection branch | open the library for `images` in multiple mode and click an item: no callback is called | multiple mode turns on `allowMultiple` and reports the selection | not executed | ComponentEditor.MultipleSelectionUnreachableAsWritten | ComponentEditor.LibraryClicksReachEditor |
