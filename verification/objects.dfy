/**
 The PDF object model the merge manipulates: values, dictionaries, indirect objects,
 an object store keyed by `ObjectId`, and the `/Type` dispatch the classification
 pass performs.
 */
module Objects {
  import opened Wrappers
  import opened Ids

  /** A direct value held inside a dictionary or array. `Opaque` stands for the
      kinds the merge never inspects (reals, inline dictionaries, ...). */
  datatype Value =
    | Null
    | Boolean(b: bool)
    | Integer(i: int)
    | Name(name: string)
    | Text(bytes: seq<bv8>)
    | Array(items: seq<Value>)
    | Reference(id: ObjectId)
    | Opaque(tag: nat)

  /** A PDF dictionary: name keys to values. */
  type Dict = map<string, Value>

  /** An indirect object. Only `Dictionary` is a dictionary in the sense of
      `as_dict`; a stream's dictionary is reached separately. */
  datatype Object =
    | Dictionary(dict: Dict)
    | Stream(streamDict: Dict, content: seq<bv8>)
    | Direct(value: Value)

  /** The objects of a document, keyed by id. */
  type Store = map<ObjectId, Object>

  /** The structural roles the merge distinguishes; everything else is `OtherKind`. */
  datatype Kind = CatalogKind | PagesKind | PageKind | OutlinesKind | OutlineKind | OtherKind

  /** The `/Type` name of a dictionary, if it has one. */
  function DictTypeName(d: Dict): Option<string> {
    if "Type" in d && d["Type"].Name? then Some(d["Type"].name) else None
  }

  /** The `/Type` name of an object: that of its dictionary or stream dictionary. */
  function TypeName(o: Object): Option<string> {
    match o
    case Dictionary(d) => DictTypeName(d)
    case Stream(d, _) => DictTypeName(d)
    case Direct(_) => None
  }

  /** The role an object plays, from its `/Type` name; a missing name is treated as
      the empty name, which is `OtherKind`. */
  function KindOf(o: Object): Kind {
    var t := match TypeName(o) case Some(n) => n case None => "";
    if t == "Catalog" then CatalogKind
    else if t == "Pages" then PagesKind
    else if t == "Page" then PageKind
    else if t == "Outlines" then OutlinesKind
    else if t == "Outline" then OutlineKind
    else OtherKind
  }

  /** The dictionary of a `Dictionary` object, and the empty dictionary otherwise. */
  function DictOf(o: Object): Dict {
    if o.Dictionary? then o.dict else map[]
  }

  /** Setting or removing a key other than `Type` leaves an object's role unchanged. */
  lemma KindKeepsOnSet(d: Dict, k: string, v: Value)
    requires k != "Type"
    ensures KindOf(Dictionary(d[k := v])) == KindOf(Dictionary(d))
  {
    assert DictTypeName(d[k := v]) == DictTypeName(d);
  }

  lemma KindKeepsOnRemove(d: Dict, k: string)
    requires k != "Type"
    ensures KindOf(Dictionary(d - {k})) == KindOf(Dictionary(d))
  {
    assert DictTypeName(d - {k}) == DictTypeName(d);
  }
}
