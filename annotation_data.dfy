/**
 * The data the annotation mapping works on: the annotation type, the annotation
 * record kept by the item store, the JSON wire shape, and the collaborators
 * (user registry, tag-colour registry) the serializer consults.
 */
module AnnotationData {
  import opened Wrappers

  type UserId = nat
  type LibraryId = nat
  type ItemId = nat

  /** The three annotation kinds. */
  datatype AnnotationType = Highlight | Note | Image

  /** Numeric codes of the kinds (ANNOTATION_TYPE_HIGHLIGHT, _NOTE, _IMAGE). */
  const ANNOTATION_TYPE_HIGHLIGHT: nat := 1
  const ANNOTATION_TYPE_NOTE: nat := 2
  const ANNOTATION_TYPE_IMAGE: nat := 3

  function TypeCode(t: AnnotationType): (c: nat)
    ensures ANNOTATION_TYPE_HIGHLIGHT <= c <= ANNOTATION_TYPE_IMAGE
  {
    match t
    case Highlight => ANNOTATION_TYPE_HIGHLIGHT
    case Note => ANNOTATION_TYPE_NOTE
    case Image => ANNOTATION_TYPE_IMAGE
  }

  function TypeFromCode(c: nat): (t: Option<AnnotationType>)
    ensures t.Some? <==> ANNOTATION_TYPE_HIGHLIGHT <= c <= ANNOTATION_TYPE_IMAGE
    ensures t.Some? ==> TypeCode(t.value) == c
  {
    if c == ANNOTATION_TYPE_HIGHLIGHT then Some(Highlight)
    else if c == ANNOTATION_TYPE_NOTE then Some(Note)
    else if c == ANNOTATION_TYPE_IMAGE then Some(Image)
    else None
  }

  /** The name under which a kind appears in JSON and in comparisons such as `type == 'highlight'`. */
  function TypeName(t: AnnotationType): string {
    match t
    case Highlight => "highlight"
    case Note => "note"
    case Image => "image"
  }

  function TypeFromName(s: string): (t: Option<AnnotationType>)
    ensures t.Some? <==> s in {"highlight", "note", "image"}
    ensures t.Some? ==> TypeName(t.value) == s
  {
    if s == "highlight" then Some(Highlight)
    else if s == "note" then Some(Note)
    else if s == "image" then Some(Image)
    else None
  }

  /** Code and name each identify the kind: decoding an encoded kind gives it back. */
  lemma TypeEncodingsRoundTrip(t: AnnotationType)
    ensures TypeFromCode(TypeCode(t)) == Some(t)
    ensures TypeFromName(TypeName(t)) == Some(t)
  {
  }

  /** JavaScript truthiness of an optional id: null, undefined and 0 are falsy. */
  predicate TruthyId(id: Option<nat>) {
    id.Some? && id.value != 0
  }

  /** JavaScript truthiness of an optional string: null, undefined and "" are falsy. */
  predicate TruthyString(s: Option<string>) {
    s.Some? && s.value != ""
  }

  /**
   * An annotation item as the item store holds it. Fields that JavaScript may
   * leave null are `Option`s. `tags` are the item's tag names in the order
   * `getTags()` returns them.
   */
  datatype AnnotationRecord = AnnotationRecord(
    libraryID: LibraryId,
    key: string,
    parentID: Option<ItemId>,
    annotationType: AnnotationType,
    annotationText: Option<string>,
    annotationImageURL: Option<string>,
    annotationComment: Option<string>,
    annotationColor: Option<string>,
    annotationPageLabel: Option<string>,
    annotationSortIndex: Option<string>,
    annotationPosition: Option<string>,
    createdByUserID: Option<UserId>,
    tags: seq<string>,
    dateModified: Option<string>)

  /** A tag in JSON: its name and, on output, the registry colour. */
  datatype JsonTag = JsonTag(name: string, color: Option<string>)

  /**
   * The `position` value of a JSON object: the raw stored string that the
   * serializer emits, or a plain object of properties that a client sends.
   */
  datatype PositionValue =
    | PositionText(text: string)
    | PositionObject(props: map<string, string>)

  /**
   * The JSON wire shape. `None` on a field stands for a missing key (or a key
   * holding null/undefined, which the mapping treats alike). `text` and
   * `imageURL` nest a second `Option`, because whether the key is present
   * matters separately from whether its value is null. `annotationType` is the
   * wire key "type", carried by the enum whose names `TypeName` gives.
   */
  datatype AnnotationJson = AnnotationJson(
    key: Option<string>,
    annotationType: AnnotationType,
    isAuthor: Option<bool>,
    authorName: Option<string>,
    text: Option<Option<string>>,
    imageURL: Option<Option<string>>,
    comment: Option<string>,
    pageLabel: Option<string>,
    color: Option<string>,
    sortIndex: Option<string>,
    position: Option<PositionValue>,
    tags: Option<seq<JsonTag>>,
    dateModified: Option<string>)

  /** The names of a JSON tag list, as `tags.map(t => t.name)` gives them. */
  function JsonTagNames(ts: seq<JsonTag>): (ns: seq<string>)
    ensures |ns| == |ts|
  {
    seq(|ts|, i requires 0 <= i < |ts| => ts[i].name)
  }

  /** A tag-colour registry entry: the colour and the tag's place among coloured tags. */
  datatype TagColor = TagColor(color: string, position: int)

  /**
   * The collaborators of the serializer: the current user (`getCurrentUserID`,
   * possibly unset), user display names (`getName`) and each library's
   * tag-colour registry (`Zotero.Tags.getColors`).
   */
  datatype Session = Session(
    currentUserID: Option<UserId>,
    getName: UserId -> string,
    getColors: LibraryId -> map<string, TagColor>)
}
