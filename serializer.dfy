/**
 * `toJSON`: the JSON object for an annotation record. It reads the record and
 * the collaborators and changes nothing.
 */
module Serializer {
  import opened Wrappers
  import opened AnnotationData
  import opened TagOrder

  /** Line 39: the current user wrote the annotation unless another user id is recorded. */
  predicate IsAuthor(session: Session, createdByUserID: Option<UserId>) {
    !TruthyId(createdByUserID) || createdByUserID == session.currentUserID
  }

  /** Line 76: the tags without their temporary sort position. */
  function StripPositions(s: seq<SortTag>): (out: seq<JsonTag>)
    ensures |out| == |s|
  {
    seq(|s|, i requires 0 <= i < |s| => JsonTag(s[i].name, s[i].color))
  }

  /** Lines 56-76: the item's tags with registry colours, sorted, positions removed. */
  function SerializeTags(names: seq<string>, colors: map<string, TagColor>): (out: seq<JsonTag>)
    ensures |out| == |names|
  {
    StripPositions(Sort(WithRegistryColors(names, colors)))
  }

  /** The colour a tag carries on output: the registry's, when the registry has the name. */
  function RegistryColor(name: string, colors: map<string, TagColor>): Option<string> {
    if name in colors then Some(colors[name].color) else None
  }

  /** Every serialized tag comes from a sorted registry-coloured tag at the same index. */
  lemma SerializedAt(names: seq<string>, colors: map<string, TagColor>, i: nat)
    requires i < |names|
    ensures var s := Sort(WithRegistryColors(names, colors));
      && SerializeTags(names, colors)[i] == JsonTag(s[i].name, s[i].color)
      && s[i] in WithRegistryColors(names, colors)
  {
    var s := Sort(WithRegistryColors(names, colors));
    assert s[i] in multiset(s);
  }

  /** The output tags are a permutation of the item's tag names. */
  lemma SerializeTagsNames(names: seq<string>, colors: map<string, TagColor>)
    ensures multiset(JsonTagNames(SerializeTags(names, colors))) == multiset(names)
  {
    var m := WithRegistryColors(names, colors);
    SortNames(m);
    assert JsonTagNames(SerializeTags(names, colors)) == Names(Sort(m));
    assert Names(m) == names;
  }

  /** Each output tag has a colour exactly when its name is in the registry, and then the registry's colour. */
  lemma SerializeTagsColors(names: seq<string>, colors: map<string, TagColor>)
    ensures var out := SerializeTags(names, colors);
      forall i :: 0 <= i < |out| ==> out[i].color == RegistryColor(out[i].name, colors)
  {
    var out := SerializeTags(names, colors);
    forall i | 0 <= i < |out| ensures out[i].color == RegistryColor(out[i].name, colors) {
      SerializedAt(names, colors, i);
    }
  }

  /** Tags whose names the registry gives a non-empty colour come out ascending by registry position. */
  lemma SerializeTagsByPosition(names: seq<string>, colors: map<string, TagColor>)
    requires forall n :: n in names ==> n in colors && colors[n].color != ""
    ensures var out := SerializeTags(names, colors);
      && (forall i :: 0 <= i < |out| ==> out[i].name in colors)
      && (forall i, j :: 0 <= i < j < |out| ==> colors[out[i].name].position <= colors[out[j].name].position)
  {
    var m := WithRegistryColors(names, colors);
    assert forall t :: t in m ==> Colored(t) && t.position.Some?;
    SortColoredByPosition(m);
    var out := SerializeTags(names, colors);
    forall i | 0 <= i < |out| ensures out[i].name in colors {
      SerializedAt(names, colors, i);
    }
  }

  /** Tags none of which the registry colours come out ascending by name. */
  lemma SerializeTagsByName(names: seq<string>, colors: map<string, TagColor>)
    requires forall n :: n in names ==> n !in colors || colors[n].color == ""
    ensures var out := SerializeTags(names, colors);
      forall i, j :: 0 <= i < j < |out| ==> LocaleCompare(out[i].name, out[j].name) <= 0
  {
    var m := WithRegistryColors(names, colors);
    assert forall t :: t in m ==> !Colored(t);
    SortUncoloredByName(m);
  }

  /** Lines 35-83: the JSON object for `item`. */
  function ToJSON(session: Session, item: AnnotationRecord): (o: AnnotationJson)
    ensures o.key == Some(item.key) && o.annotationType == item.annotationType
    ensures o.isAuthor == Some(IsAuthor(session, item.createdByUserID))
    ensures o.authorName.Some? <==> !IsAuthor(session, item.createdByUserID)
    ensures o.authorName.Some? ==> o.authorName.value == session.getName(item.createdByUserID.value)
    ensures o.text.Some? <==> item.annotationType == Highlight
    ensures o.text.Some? ==> o.text.value == item.annotationText
    ensures o.imageURL.Some? <==> item.annotationType == Image
    ensures o.imageURL.Some? ==> o.imageURL.value == item.annotationImageURL
    ensures o.comment == item.annotationComment && o.pageLabel == item.annotationPageLabel
    ensures o.color == item.annotationColor && o.sortIndex == item.annotationSortIndex
    ensures o.position == if item.annotationPosition.Some? then Some(PositionText(item.annotationPosition.value)) else None
    ensures o.dateModified == item.dateModified
    ensures o.tags.Some? <==> |item.tags| > 0
    ensures o.tags.Some? ==> o.tags.value == SerializeTags(item.tags, session.getColors(item.libraryID))
    ensures o.tags.Some? ==> |o.tags.value| == |item.tags| && multiset(JsonTagNames(o.tags.value)) == multiset(item.tags)
    ensures o.tags.Some? ==> forall i :: 0 <= i < |o.tags.value| ==>
              o.tags.value[i].color == RegistryColor(o.tags.value[i].name, session.getColors(item.libraryID))
  {
    var isAuthor := IsAuthor(session, item.createdByUserID);
    var colors := session.getColors(item.libraryID);
    var tags := SerializeTags(item.tags, colors);
    SerializeTagsNames(item.tags, colors);
    SerializeTagsColors(item.tags, colors);
    AnnotationJson(
      key := Some(item.key),
      annotationType := item.annotationType,
      isAuthor := Some(isAuthor),
      authorName := if isAuthor then None else Some(session.getName(item.createdByUserID.value)),
      text := if TypeName(item.annotationType) == "highlight" then Some(item.annotationText) else None,
      imageURL := if TypeName(item.annotationType) == "image" then Some(item.annotationImageURL) else None,
      comment := item.annotationComment,
      pageLabel := item.annotationPageLabel,
      color := item.annotationColor,
      sortIndex := item.annotationSortIndex,
      position := if item.annotationPosition.Some? then Some(PositionText(item.annotationPosition.value)) else None,
      tags := if |tags| > 0 then Some(tags) else None,
      dateModified := item.dateModified)
  }
}
