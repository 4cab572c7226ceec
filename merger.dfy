/**
 * `saveFromJSON`: validates its arguments, finds the annotation for
 * (library, key) in the item store or makes a new one, and copies the JSON
 * fields onto it.
 */
module Merger {
  import opened Wrappers
  import opened AnnotationData
  import Serializer

  /** The errors `saveFromJSON` throws before it touches the store. */
  datatype SaveError = AttachmentNotProvided | AttachmentNotSaved | KeyNotProvided

  /** The parent attachment item: its id, and its library once it is saved. */
  datatype Attachment = Attachment(id: ItemId, libraryID: Option<LibraryId>)

  /** The item store's index: (libraryID, key). */
  type StoreKey = (LibraryId, string)

  /** Lines 92-100: the argument checks, in the source's order; on success, the store key to use. */
  function CheckArguments(attachment: Option<Attachment>, json: AnnotationJson): (r: Result<StoreKey, SaveError>)
    ensures r == Failure(AttachmentNotProvided) <==> attachment.None?
    ensures r == Failure(AttachmentNotSaved) <==> attachment.Some? && !TruthyId(attachment.value.libraryID)
    ensures r == Failure(KeyNotProvided) <==>
              attachment.Some? && TruthyId(attachment.value.libraryID) && !TruthyString(json.key)
    ensures r.Success? ==> attachment.Some? && attachment.value.libraryID == Some(r.value.0) && r.value.0 != 0
    ensures r.Success? ==> json.key == Some(r.value.1) && r.value.1 != ""
  {
    if attachment.None? then Failure(AttachmentNotProvided)
    else if !TruthyId(attachment.value.libraryID) then Failure(AttachmentNotSaved)
    else if !TruthyString(json.key) then Failure(KeyNotProvided)
    else Success((attachment.value.libraryID.value, json.key.value))
  }

  /** Lines 104-106: a new annotation item with only its library and key set. */
  function NewRecord(libraryID: LibraryId, key: string): (r: AnnotationRecord)
    ensures r.libraryID == libraryID && r.key == key && r.tags == []
  {
    AnnotationRecord(
      libraryID := libraryID, key := key, parentID := None, annotationType := Note,
      annotationText := None, annotationImageURL := None, annotationComment := None,
      annotationColor := None, annotationPageLabel := None, annotationSortIndex := None,
      annotationPosition := None, createdByUserID := None, tags := [], dateModified := None)
  }

  /** Lines 102-108: the item found under `k`, or a new one. */
  function Target(store: map<StoreKey, AnnotationRecord>, k: StoreKey): AnnotationRecord {
    if k in store then store[k] else NewRecord(k.0, k.1)
  }

  /** `Object.assign({}, undefined)`: a missing position is an empty object. */
  const EmptyPosition: PositionValue := PositionObject(map[])

  /** The value a present-or-missing JSON key hands to a setter: undefined when missing. */
  function ValueOf(v: Option<Option<string>>): Option<string> {
    if v.Some? then v.value else None
  }

  /**
   * Lines 109-123: the item after the JSON is copied onto it. `savePosition`
   * stands for `JSON.stringify(Object.assign({}, ·))`.
   */
  function Merge(item: AnnotationRecord, attachment: Attachment, json: AnnotationJson,
                 savePosition: PositionValue -> string): AnnotationRecord
  {
    item.(
      parentID := Some(attachment.id),
      annotationType := json.annotationType,
      annotationText := if TypeName(json.annotationType) == "highlight" then ValueOf(json.text) else item.annotationText,
      annotationComment := json.comment,
      annotationColor := json.color,
      annotationPageLabel := json.pageLabel,
      annotationSortIndex := json.sortIndex,
      annotationPosition := Some(savePosition(json.position.GetOr(EmptyPosition))),
      tags := JsonTagNames(json.tags.GetOr([])))
  }

  /** The store after a call: unchanged on an argument error, else the merged item under its key. */
  function StoreAfterSave(store: map<StoreKey, AnnotationRecord>, attachment: Option<Attachment>,
                          json: AnnotationJson, savePosition: PositionValue -> string): map<StoreKey, AnnotationRecord>
  {
    match CheckArguments(attachment, json)
    case Failure(_) => store
    case Success(k) => store[k := Merge(Target(store, k), attachment.value, json, savePosition)]
  }

  /** Every stored item sits under its own (libraryID, key), so no pair names two items. */
  ghost predicate Indexed(store: map<StoreKey, AnnotationRecord>) {
    forall k :: k in store ==> store[k].libraryID == k.0 && store[k].key == k.1
  }

  /** Merging copies the JSON onto the item and nothing else. */
  lemma MergeFields(item: AnnotationRecord, attachment: Attachment, json: AnnotationJson,
                    savePosition: PositionValue -> string)
    ensures var r := Merge(item, attachment, json, savePosition);
      && r.libraryID == item.libraryID && r.key == item.key
      && r.parentID == Some(attachment.id)
      && r.annotationType == json.annotationType
      && (json.annotationType == Highlight ==> r.annotationText == ValueOf(json.text))
      && (json.annotationType != Highlight ==> r.annotationText == item.annotationText)
      && r.annotationComment == json.comment && r.annotationColor == json.color
      && r.annotationPageLabel == json.pageLabel && r.annotationSortIndex == json.sortIndex
      && r.annotationPosition == Some(savePosition(if json.position.Some? then json.position.value else EmptyPosition))
      && (json.tags.None? ==> r.tags == [])
      && (json.tags.Some? ==>
            && |r.tags| == |json.tags.value|
            && forall i :: 0 <= i < |r.tags| ==> r.tags[i] == json.tags.value[i].name)
      && r.annotationImageURL == item.annotationImageURL && r.createdByUserID == item.createdByUserID
      && r.dateModified == item.dateModified
  {
  }

  /** A failing call leaves the store as it was; a succeeding one adds at most the one key and keeps it indexed. */
  lemma {:induction false} SaveFrame(store: map<StoreKey, AnnotationRecord>, attachment: Option<Attachment>,
                                      json: AnnotationJson, savePosition: PositionValue -> string)
    requires Indexed(store)
    ensures var after := StoreAfterSave(store, attachment, json, savePosition);
      && Indexed(after)
      && (CheckArguments(attachment, json).Failure? ==> after == store)
      && (CheckArguments(attachment, json).Success? ==>
            var k := CheckArguments(attachment, json).value;
            && after.Keys == store.Keys + {k}
            && (forall k' :: k' in store && k' != k ==> after[k'] == store[k']))
  {
    var after := StoreAfterSave(store, attachment, json, savePosition);
    if CheckArguments(attachment, json).Success? {
      var k := CheckArguments(attachment, json).value;
      assert Target(store, k).libraryID == k.0 && Target(store, k).key == k.1;
      MergeFields(Target(store, k), attachment.value, json, savePosition);
    }
  }

  /** Saving the same JSON twice is the same as saving it once: no second item, same field values. */
  lemma {:induction false} SaveTwice(store: map<StoreKey, AnnotationRecord>, attachment: Option<Attachment>,
                                      json: AnnotationJson, savePosition: PositionValue -> string)
    ensures var once := StoreAfterSave(store, attachment, json, savePosition);
      StoreAfterSave(once, attachment, json, savePosition) == once
  {
    var once := StoreAfterSave(store, attachment, json, savePosition);
    if CheckArguments(attachment, json).Success? {
      var k := CheckArguments(attachment, json).value;
      var item := Merge(Target(store, k), attachment.value, json, savePosition);
      assert Target(once, k) == item;
      assert Merge(item, attachment.value, json, savePosition) == item;
    }
  }

  /**
   * Saving what `toJSON` produced, under the item's own library, stores an item
   * with the same settable fields; the tags come back as the same names, in
   * the serializer's order.
   */
  lemma {:induction false} SaveSerialized(session: Session, item: AnnotationRecord,
                                          store: map<StoreKey, AnnotationRecord>, attachment: Attachment,
                                          savePosition: PositionValue -> string)
    requires Indexed(store)
    requires item.libraryID != 0 && item.key != ""
    requires attachment.libraryID == Some(item.libraryID)
    ensures var json := Serializer.ToJSON(session, item);
      var k := (item.libraryID, item.key);
      && CheckArguments(Some(attachment), json) == Success(k)
      && var back := StoreAfterSave(store, Some(attachment), json, savePosition)[k];
      && back.libraryID == item.libraryID && back.key == item.key
      && back.parentID == Some(attachment.id)
      && back.annotationType == item.annotationType
      && (item.annotationType == Highlight ==> back.annotationText == item.annotationText)
      && back.annotationComment == item.annotationComment && back.annotationColor == item.annotationColor
      && back.annotationPageLabel == item.annotationPageLabel
      && back.annotationSortIndex == item.annotationSortIndex
      && multiset(back.tags) == multiset(item.tags)
  {
    var json := Serializer.ToJSON(session, item);
    var k := (item.libraryID, item.key);
    var back := Merge(Target(store, k), attachment, json, savePosition);
    MergeFields(Target(store, k), attachment, json, savePosition);
    assert StoreAfterSave(store, Some(attachment), json, savePosition)[k] == back;
    if json.tags.Some? {
      assert back.tags == JsonTagNames(json.tags.value);
    } else {
      assert back.tags == [] && item.tags == [];
    }
  }

  /** The item store: annotation items indexed by (libraryID, key). */
  class AnnotationStore {
    var items: map<StoreKey, AnnotationRecord>

    ghost predicate Valid()
      reads this
    {
      Indexed(items)
    }

    constructor ()
      ensures Valid() && items == map[]
    {
      items := map[];
    }

    /**
     * Lines 91-128. On an argument error nothing is looked up or changed. Otherwise
     * the item under (attachment.libraryID, json.key) is reused, or exactly one
     * new item is added under that pair, the JSON is copied onto it, and no other
     * entry changes.
     */
    method SaveFromJSON(attachment: Option<Attachment>, json: AnnotationJson,
                        savePosition: PositionValue -> string) returns (r: Result<AnnotationRecord, SaveError>)
      requires Valid()
      modifies this
      ensures Valid()
      ensures items == StoreAfterSave(old(items), attachment, json, savePosition)
      ensures CheckArguments(attachment, json).Failure? ==>
                r == Failure(CheckArguments(attachment, json).error) && items == old(items)
      ensures CheckArguments(attachment, json).Success? ==>
                var k := CheckArguments(attachment, json).value;
                && r.Success? && k in items && items[k] == r.value
                && r.value == Merge(Target(old(items), k), attachment.value, json, savePosition)
                && (k in old(items) ==> items.Keys == old(items).Keys)
                && (k !in old(items) ==> items.Keys == old(items).Keys + {k})
                && (forall k' :: k' in old(items) && k' != k ==> items[k'] == old(items)[k'])
    {
      if attachment.None? {
        return Failure(AttachmentNotProvided);
      }
      if !TruthyId(attachment.value.libraryID) {
        return Failure(AttachmentNotSaved);
      }
      if !TruthyString(json.key) {
        return Failure(KeyNotProvided);
      }
      var k := (attachment.value.libraryID.value, json.key.value);
      var item: AnnotationRecord;
      if k in items {
        item := items[k];
      } else {
        item := NewRecord(k.0, k.1);
      }
      item := item.(parentID := Some(attachment.value.id));
      item := item.(annotationType := json.annotationType);
      if TypeName(json.annotationType) == "highlight" {
        item := item.(annotationText := ValueOf(json.text));
      }
      item := item.(annotationComment := json.comment);
      item := item.(annotationColor := json.color);
      item := item.(annotationPageLabel := json.pageLabel);
      item := item.(annotationSortIndex := json.sortIndex);
      item := item.(annotationPosition := Some(savePosition(json.position.GetOr(EmptyPosition))));
      item := item.(tags := JsonTagNames(json.tags.GetOr([])));
      SaveFrame(old(items), attachment, json, savePosition);
      items := items[k := item];
      r := Success(item);
    }
  }
}
