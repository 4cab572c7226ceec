# Zotero annotation JSON mapping, modelled in Dafny

This project models `Zotero.Annotations` in `chrome/content/zotero/xpcom/annotations.js`:
the mapping between an annotation item (a highlight, note or image annotation on a PDF
attachment) and the JSON object that the reader and sync exchange.

- `toJSON` (serializer) is a pure function, `Serializer.ToJSON`. It builds the JSON object
  from the item and its collaborators: the current user id, user display names, and the
  library's tag-colour registry. The collaborators travel in a `Session` value.
- The tag pipeline inside `toJSON` is in module `TagOrder`. Each tag name gets its registry
  colour and position. The list is sorted with the source's comparator, written out case
  by case in `Compare`, and the positions are then removed again.
- `saveFromJSON` (merger) is the method `Merger.AnnotationStore.SaveFromJSON`. It works on
  a class that holds the item store as a map from (libraryID, key) to items. It checks its
  arguments, finds or creates the item, copies the JSON fields onto it in the source's
  order, and writes it back. The pure function `Merger.StoreAfterSave` is its
  specification; the lemmas about the store are stated about that function.

Modules: `Wrappers` (Option, Result), `AnnotationData` (the annotation kinds and their
codes 1/2/3, the item record, the JSON wire shape, the collaborators), `TagOrder`,
`Serializer`, `Merger`.

Conventions:
- A JavaScript value that may be null or undefined is an `Option`.
- JavaScript truthiness is written out. `TruthyId` treats null, undefined and 0 as false.
  `TruthyString` treats null, undefined and "" as false.
- In the JSON datatype, `None` means the key is missing. `text` and `imageURL` carry a
  second `Option` inside, so "key present with a null value" stays distinct from "key
  missing".
- `Zotero.localeCompare` is replaced by `TagOrder.LocaleCompare`, a lexicographic order on
  character codes that is proved to be a total order.
- `JSON.stringify(Object.assign({}, json.position))` is the parameter `savePosition`.
  A missing position reaches it as the empty object, because `Object.assign({}, undefined)`
  yields `{}`.
- `Array.prototype.sort` is modelled by a fixed stable insertion sort, `TagOrder.Sort`.

Three behaviours of the code that the model keeps:
- `toJSON` emits the stored position string (line 53), not a parsed object.
- The comparator does not by itself put coloured tags before uncoloured ones (see
  `CompareInconsistentOnMixed`).
- Lines 114-116 copy `text` whenever the type is highlight, even when the JSON has no
  `text`; the item's text setter is then handed undefined.

## Model

| member | source | states |
|---|---|---|
| `AnnotationData.TypeCode` | chrome/content/zotero/xpcom/annotations.js:30-32 | every annotation kind has one of the codes 1 (highlight), 2 (note), 3 (image) |
| `AnnotationData.TypeFromCode` | chrome/content/zotero/xpcom/annotations.js:30-32 | a code decodes to a kind exactly when it is 1, 2 or 3, and then to the kind with that code |
| `AnnotationData.TypeFromName` | chrome/content/zotero/xpcom/annotations.js:43-46 | a string names a kind exactly when it is "highlight", "note" or "image", and it names only that kind |
| `AnnotationData.TypeEncodingsRoundTrip` | chrome/content/zotero/xpcom/annotations.js:30-32 | decoding the code or the name of a kind gives that kind back |
| `AnnotationData.JsonTagNames` | chrome/content/zotero/xpcom/annotations.js:123 | the name list of a JSON tag list has one name per tag |
| `TagOrder.LocaleCompare` | chrome/content/zotero/xpcom/annotations.js:70 | the string comparison returns -1, 0 or 1 |
| `TagOrder.LocaleCompareAntisymmetric` | chrome/content/zotero/xpcom/annotations.js:70 | swapping the arguments negates the comparison |
| `TagOrder.LocaleCompareZeroIffEqual` | chrome/content/zotero/xpcom/annotations.js:70 | two strings compare as 0 exactly when they are equal |
| `TagOrder.LocaleCompareTransitive` | chrome/content/zotero/xpcom/annotations.js:70 | "compares at most 0" is transitive, so the comparison is a total order |
| `TagOrder.CompareCases` | chrome/content/zotero/xpcom/annotations.js:69-74 | two uncoloured tags compare by name; an uncoloured tag against a coloured one is positive (goes after); two coloured tags compare by position difference; a coloured tag against one without a position is 0 (NaN). The repeated test on line 71 is unreachable (an `assert false` in `Compare`) |
| `TagOrder.CompareInconsistentOnMixed` | chrome/content/zotero/xpcom/annotations.js:72-73 | a coloured tag and an uncoloured one compare as 0 one way and as 1 the other, so the comparator is not consistent in the sense of ECMA-262 |
| `TagOrder.Compare` | chrome/content/zotero/xpcom/annotations.js:69-74 | the comparator handed to `tags.sort`, with its unreachable line-71 branch proved dead; its behaviour case by case is stated by `CompareCases` and `CompareInconsistentOnMixed` |
| `TagOrder.WithRegistryColor` | chrome/content/zotero/xpcom/annotations.js:57-66 | a tag keeps its name; it gets a colour and a position exactly when the registry has its name, and then the registry's colour and position |
| `TagOrder.WithRegistryColors` | chrome/content/zotero/xpcom/annotations.js:57-67 | the tag list is mapped element by element, one tag object per name, in order |
| `TagOrder.Insert` | chrome/content/zotero/xpcom/annotations.js:69 | one insertion step adds exactly the inserted tag (one more element, same multiset plus it) |
| `TagOrder.Sort` | chrome/content/zotero/xpcom/annotations.js:69 | the sort returns a permutation of its input (same length, same multiset) |
| `TagOrder.SortNames` | chrome/content/zotero/xpcom/annotations.js:69 | the sorted tags carry the same multiset of names as the input |
| `TagOrder.SortOrdered` | chrome/content/zotero/xpcom/annotations.js:69-74 | whenever the comparator is a total preorder on the input's tags, every earlier output tag compares at most 0 against every later one |
| `TagOrder.SortUncoloredByName` | chrome/content/zotero/xpcom/annotations.js:69-70 | when no tag is coloured, the output is ascending by name |
| `TagOrder.SortColoredByPosition` | chrome/content/zotero/xpcom/annotations.js:69-73 | when every tag is coloured and has a position, the output consists of input tags and is ascending by position |
| `Serializer.StripPositions` | chrome/content/zotero/xpcom/annotations.js:76 | one output tag per sorted tag; output tags are `JsonTag` values, which have no position field |
| `Serializer.SerializeTags` | chrome/content/zotero/xpcom/annotations.js:56-76 | the output tag list has one entry per item tag |
| `Serializer.SerializeTagsNames` | chrome/content/zotero/xpcom/annotations.js:57-76 | the output tags are a permutation of the item's tag names |
| `Serializer.SerializeTagsColors` | chrome/content/zotero/xpcom/annotations.js:61-62 | each output tag has a colour exactly when its name is in the registry, and then the registry's colour |
| `Serializer.SerializeTagsByPosition` | chrome/content/zotero/xpcom/annotations.js:64-73 | when the registry gives every tag a non-empty colour, the output is ascending by registry position |
| `Serializer.SerializeTagsByName` | chrome/content/zotero/xpcom/annotations.js:69-70 | when the registry colours no tag (or only with ""), the output is ascending by name |
| `Serializer.IsAuthor` | chrome/content/zotero/xpcom/annotations.js:39 | the author flag: true exactly when createdByUserID is falsy or equals the current user id; `ToJSON`'s contract states it as the `isAuthor` field and ties `authorName` to its negation |
| `Serializer.ToJSON` | chrome/content/zotero/xpcom/annotations.js:35-83 | key and type always; isAuthor is true exactly when createdByUserID is falsy or equals the current user id; authorName is present exactly when isAuthor is false, and is then the user's name; text (the item's text) is present exactly for highlights, imageURL exactly for images; comment, pageLabel, color, sortIndex, position (the raw stored string) and dateModified are copied; tags are present exactly when the item has tags, are then a permutation of its tag names, and each carries the registry colour exactly when registered |
| `Merger.CheckArguments` | chrome/content/zotero/xpcom/annotations.js:92-100 | fails with "not provided" exactly when the attachment is missing, with "not saved" exactly when its libraryID is falsy, with "key not provided" exactly when those pass and json.key is falsy; otherwise yields the (libraryID, key) pair, both truthy |
| `Merger.NewRecord` | chrome/content/zotero/xpcom/annotations.js:104-106 | a created item has the attachment's libraryID, the JSON key and no tags |
| `Merger.Target` | chrome/content/zotero/xpcom/annotations.js:102-108 | the item found under (libraryID, key), or a new item with that pair; `SaveFrame` and `SaveFromJSON` state that an existing item is reused and otherwise exactly one key is added |
| `Merger.Merge` | chrome/content/zotero/xpcom/annotations.js:109-123 | the item after the JSON is copied onto it; its field-by-field content is stated by `MergeFields`, its idempotence by `SaveTwice` |
| `Merger.StoreAfterSave` | chrome/content/zotero/xpcom/annotations.js:92-125 | the store after a call: unchanged on an argument error, else the merged item under its key; stated by `SaveFrame`, `SaveTwice` and `SaveSerialized`, and equal to what `SaveFromJSON` leaves |
| `Merger.MergeFields` | chrome/content/zotero/xpcom/annotations.js:109-123 | after the merge, parentID is the attachment id and the type is the JSON type; text is overwritten only for highlights and otherwise kept; comment, color, pageLabel and sortIndex equal the JSON values; position is the stringified JSON position (empty object if missing); tags are the JSON tag names (none if missing), with colours discarded; libraryID, key, imageURL, author and dateModified are untouched |
| `Merger.SaveFrame` | chrome/content/zotero/xpcom/annotations.js:92-109 | a call with bad arguments leaves the store unchanged; otherwise the store gains at most the one (libraryID, key) entry, no other entry changes, and every item stays under its own (libraryID, key) |
| `Merger.SaveTwice` | chrome/content/zotero/xpcom/annotations.js:102-123 | saving the same JSON a second time leaves the store exactly as after the first save: no new item, same field values |
| `Merger.SaveSerialized` | chrome/content/zotero/xpcom/annotations.js:35-123 | saving the JSON that toJSON produced passes the argument checks and stores an item with the original's library, key, type, comment, color, pageLabel, sortIndex, highlight text and tag names (as a multiset) |
| `Merger.AnnotationStore.SaveFromJSON` | chrome/content/zotero/xpcom/annotations.js:91-128 | returns the argument error and changes nothing when a check fails; otherwise reuses the item under (attachment.libraryID, json.key) or adds exactly one new item there, returns the merged item, stores it under that pair, changes no other entry, and keeps the store indexed |

## Left out

- `async`/`await`, `loadPrimaryData` (line 107) and `saveTx` (line 125) are left out. They are the item store's persistence. The save is modelled as the update of the store map only. So the model has no persistence failure, no cancellation, and no `dateModified` update by the save.
- `_requireData` (lines 111-112) is left out. Every item in the store is taken to be fully loaded, so the internal "data not loaded" error never arises.
- `Zotero.Users.getCurrentUserID`, `Zotero.Users.getName` and `Zotero.Tags.getColors` are not modelled. They are fields of the `Session` parameter.
- `Zotero.localeCompare` is not modelled. Locale-aware collation is replaced by code-unit lexicographic order; only its being a total order is used.
- `JSON.stringify(Object.assign({}, json.position))` is not modelled. It is the uninterpreted parameter `savePosition`. No position round trip is claimed, because `toJSON` emits the stored string (line 53) and not a parsed object.
- The engine's `Array.prototype.sort` algorithm is not modelled. The comparator is inconsistent on mixed coloured and uncoloured tags, so ECMA-262 leaves the resulting order to the implementation. The model fixes one stable insertion sort, and claims only a permutation plus the order for all-coloured and all-uncoloured lists.
- Null and undefined are not told apart: both are `None`, so the model cannot distinguish a JSON key holding null from a missing key. The setters at lines 115 and 117-120 are handed null or undefined respectively, and any difference the item's setters make between the two is lost. Only line 121 treats them alike in the source, since `Object.assign({}, null)` and `Object.assign({}, undefined)` both give `{}`.
- The annotation type is an enum. The source's string tests `type == 'highlight'` (lines 43, 46, 114) are written as `TypeName(t) == "highlight"` (and `"image"`), which `TypeFromName` and `TypeEncodingsRoundTrip` show to be equivalent to testing the enum value.
- `json.type` is the typed enum. A JSON object without a valid type cannot be represented, because the item's type setter that would judge such a value is not part of this model.
- `setTags` (line 123) is modelled as replacing the item's tag names with the given list in order. Its deduplication and tag types (manual or automatic) are not modelled.
- Object identity is not modelled. The returned item is the stored value, not a shared reference.
- Date formatting and the generic item's other fields are not part of this model.
