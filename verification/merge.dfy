/**
 `merge_documents`: the source loop, the classification pass, the two soft-degrade
 exits, re-parenting, and the rebuilt Pages root, Catalog and trailer `Root`. The
 model stops where the code hands the document to lopdf's final renumbering,
 outline building and compression.
 */
module Merge {
  import opened Wrappers
  import opened Ids
  import opened Objects
  import opened Collect
  import opened Classification
  import opened Finalize

  /** How far the merge got: all the way, or out through one of the two early
      returns (no Pages object, no Catalog object). */
  datatype Status = Complete | NoPagesRoot | NoCatalog

  /** The output document: its objects, the trailer's `Root`, and the bookmarks
      registered on it. */
  datatype Merged = Merged(objects: Store, root: Option<ObjectId>, bookmarks: seq<Bookmark>, status: Status)

  /** The last two writes of a complete merge: the rebuilt Pages root over the
      store, then the patched Catalog when the Catalog content is a dictionary. */
  function WriteRoots(below: Store, pagesId: ObjectId, pagesDict: Dict, catalogId: ObjectId, catalog: Object): (r: Store)
    requires pagesId != catalogId
    ensures r.Keys == below.Keys + {pagesId} + (if catalog.Dictionary? then {catalogId} else {})
    ensures r[pagesId] == Dictionary(pagesDict)
    ensures catalog.Dictionary? ==> r[catalogId] == Dictionary(CatalogDict(catalog.dict, pagesId))
    ensures forall id :: id in below && id != pagesId && id != catalogId ==> r[id] == below[id]
  {
    var withPages := below[pagesId := Dictionary(pagesDict)];
    if catalog.Dictionary? then withPages[catalogId := Dictionary(CatalogDict(catalog.dict, pagesId))]
    else withPages
  }

  /** Everything after the source loop, given what the loop collected. */
  function Assemble(col: Collected): Merged {
    var c := Classify(col.objects);
    if c.pagesRoot.None? then Merged(c.store, None, col.bookmarks, NoPagesRoot)
    else
      var pagesId := c.pagesRoot.value.0;
      var reparented := Reparent(c.store, col.pages, pagesId);
      if c.catalog.None? then Merged(reparented, None, col.bookmarks, NoCatalog)
      else
        var catalogId := c.catalog.value.0;
        assert KindOf(col.objects[pagesId]) != KindOf(col.objects[catalogId]);
        var objects := WriteRoots(reparented, pagesId, PagesRootDict(c.pagesRoot.value.1, col.pages), catalogId, c.catalog.value.1);
        Merged(objects, Some(catalogId), col.bookmarks, Complete)
  }

  /** The merge of the given sources, processed in the given order. It fails only
      when a requested page's id has no object, and otherwise carries one bookmark
      per source that found a page. */
  function MergeDocuments(sources: seq<Source>): (r: Result<Merged, Error>)
    ensures r.Failure? <==> AnyBroken(sources)
    ensures r.Success? ==> r.value.bookmarks == NumberedMarks(Anchors(sources))
  {
    CollectAllFailure(sources);
    CollectAllMarks(sources);
    match CollectAll(sources)
    case Failure(e) => Failure(e)
    case Success(col) => Success(Assemble(col))
  }

  // ---------------------------------------------------------------------------
  // Reference definitions over the pooled objects

  ghost function Others(all: Store): Store {
    OthersIn(all, all.Keys)
  }

  ghost function CatalogIds(all: Store): set<ObjectId> {
    CatalogsIn(all, all.Keys)
  }

  ghost function PagesIds(all: Store): set<ObjectId> {
    PagesIn(all, all.Keys)
  }

  /** `d` is the rebuilt Pages root: `Count` and `Kids` describe the collected
      pages, and every other key is that of the first-wins union of all Pages
      dictionaries. */
  ghost predicate IsMergedPagesRoot(d: Dict, all: Store, pages: Store) {
    && "Count" in d && d["Count"] == Integer(|pages| % U32_MODULUS)
    && "Kids" in d && d["Kids"] == Array(KidsOf(pages))
    && forall k :: k != "Count" && k != "Kids" ==> FirstWinsAt(d, all, all.Keys, k)
  }

  // ---------------------------------------------------------------------------
  // Properties of the passes after the source loop

  /** The merge leaves early without a Pages object, and again without a Catalog;
      only when both exist is the trailer's `Root` set, to the first Catalog id. */
  lemma AssembleStatus(col: Collected)
    ensures var r := Assemble(col); var all := col.objects;
      && (r.status == NoPagesRoot <==> PagesIds(all) == {})
      && (r.status == NoCatalog <==> PagesIds(all) != {} && CatalogIds(all) == {})
      && (r.status == Complete <==> PagesIds(all) != {} && CatalogIds(all) != {})
      && (r.root.Some? <==> r.status == Complete)
      && (r.root.Some? ==> r.root.value == MinId(CatalogIds(all)))
      && r.bookmarks == col.bookmarks
  {
  }

  /** Without a Pages object the result holds exactly the objects of no structural
      role: no page, no Pages root, no Catalog. */
  lemma AssembleNoPagesRoot(col: Collected)
    requires PagesIds(col.objects) == {}
    ensures Assemble(col).objects == Others(col.objects)
    ensures forall id :: id in Assemble(col).objects ==> KindOf(Assemble(col).objects[id]) == OtherKind
  {
  }

  /** With a Pages object but no Catalog the result holds the objects of no
      structural role and the re-parented pages, and no Pages root. */
  lemma AssembleNoCatalog(col: Collected)
    requires PagesIds(col.objects) != {} && CatalogIds(col.objects) == {}
    ensures Assemble(col).objects == Others(col.objects) + Reparented(col.pages, MinId(PagesIds(col.objects)))
  {
  }

  /** The ids of a complete merge: the objects of no structural role, the
      re-parented pages, the Pages root, and the Catalog when its content is a
      dictionary. */
  lemma AssembleKeys(col: Collected)
    requires PagesIds(col.objects) != {} && CatalogIds(col.objects) != {}
    ensures var all := col.objects;
      var pagesId := MinId(PagesIds(all));
      var catalogId := MinId(CatalogIds(all));
      Assemble(col).objects.Keys ==
        Others(all).Keys + Reparented(col.pages, pagesId).Keys + {pagesId}
        + (if all[MaxId(CatalogIds(all))].Dictionary? then {catalogId} else {})
  {
  }

  /** In a complete merge the surviving Pages id is the smallest Pages-typed
      dictionary id, and it holds the rebuilt Pages root. */
  lemma AssemblePagesRoot(col: Collected)
    requires PagesIds(col.objects) != {} && CatalogIds(col.objects) != {}
    ensures var all := col.objects; var pagesId := MinId(PagesIds(all));
      && pagesId in Assemble(col).objects
      && Assemble(col).objects[pagesId].Dictionary?
      && IsMergedPagesRoot(Assemble(col).objects[pagesId].dict, all, col.pages)
  {
    var all := col.objects;
    ClassifyUnion(all);
    var c := Classify(all);
    var u := c.pagesRoot.value.1;
    var d := PagesRootDict(u, col.pages);
    assert Assemble(col).objects[c.pagesRoot.value.0] == Dictionary(d);
    forall k | k != "Count" && k != "Kids" ensures FirstWinsAt(d, all, all.Keys, k) {
      assert FirstWinsAt(u, all, all.Keys, k);
    }
  }

  /** In a complete merge, when the last Catalog's content is a dictionary, the
      first Catalog id holds it patched to point at the Pages root. */
  lemma AssembleCatalog(col: Collected)
    requires PagesIds(col.objects) != {} && CatalogIds(col.objects) != {}
    requires col.objects[MaxId(CatalogIds(col.objects))].Dictionary?
    ensures var all := col.objects; var catalogId := MinId(CatalogIds(all));
      && catalogId in Assemble(col).objects
      && Assemble(col).objects[catalogId] == Dictionary(CatalogDict(all[MaxId(CatalogIds(all))].dict, MinId(PagesIds(all))))
  {
  }

  /** The objects of a complete merge: the store after re-parenting, with the
      Pages root and then the patched Catalog written over it; at an id that is
      neither of those two, the store after re-parenting shows through. */
  lemma AssembleLayersAt(col: Collected, id: ObjectId)
    requires PagesIds(col.objects) != {} && CatalogIds(col.objects) != {}
    requires id != MinId(PagesIds(col.objects))
    requires id == MinId(CatalogIds(col.objects)) ==> !col.objects[MaxId(CatalogIds(col.objects))].Dictionary?
    requires id in Others(col.objects) + Reparented(col.pages, MinId(PagesIds(col.objects)))
    ensures id in Assemble(col).objects
    ensures Assemble(col).objects[id] == (Others(col.objects) + Reparented(col.pages, MinId(PagesIds(col.objects))))[id]
  {
  }

  /** In a complete merge every collected page dictionary whose id is neither the
      Pages root's nor the Catalog's is stored re-parented. */
  lemma AssemblePages(col: Collected)
    requires PagesIds(col.objects) != {} && CatalogIds(col.objects) != {}
    ensures var all := col.objects; var r := Assemble(col).objects;
      var pagesId := MinId(PagesIds(all)); var catalogId := MinId(CatalogIds(all));
      var re := Reparented(col.pages, pagesId);
      forall id :: id in re && id != pagesId && id != catalogId ==> id in r && r[id] == re[id]
  {
    var all := col.objects;
    var pagesId := MinId(PagesIds(all));
    var re := Reparented(col.pages, pagesId);
    forall id | id in re && id != pagesId && id != MinId(CatalogIds(all))
      ensures id in Assemble(col).objects && Assemble(col).objects[id] == re[id]
    {
      AssembleLayersAt(col, id);
    }
  }

  /** In a complete merge every object of no structural role that is not also a
      collected page dictionary is stored unchanged under its own id. */
  lemma AssembleOthers(col: Collected)
    requires PagesIds(col.objects) != {} && CatalogIds(col.objects) != {}
    ensures var all := col.objects; var r := Assemble(col).objects;
      var re := Reparented(col.pages, MinId(PagesIds(all)));
      forall id :: id in Others(all) && id !in re ==> id in r && r[id] == all[id]
  {
    var all := col.objects;
    var pagesId := MinId(PagesIds(all));
    var catalogId := MinId(CatalogIds(all));
    var re := Reparented(col.pages, pagesId);
    forall id | id in Others(all) && id !in re
      ensures id in Assemble(col).objects && Assemble(col).objects[id] == all[id]
    {
      assert KindOf(all[id]) == OtherKind;
      assert id != pagesId && id != catalogId;
      AssembleLayersAt(col, id);
    }
  }

  /** After the Pages check, when every collected page is a Page object as it
      stands in the pool (so none is the Pages root or the Catalog), every
      collected page dictionary is stored re-parented. */
  lemma AssembleTypedPages(col: Collected)
    requires PagesIds(col.objects) != {}
    requires forall id :: id in col.pages ==> id in col.objects && col.objects[id] == col.pages[id]
    requires forall id :: id in col.pages ==> KindOf(col.pages[id]) == PageKind
    ensures var re := Reparented(col.pages, MinId(PagesIds(col.objects)));
      forall id :: id in re ==> id in Assemble(col).objects && Assemble(col).objects[id] == re[id]
  {
    var all := col.objects;
    AssembleStatus(col);
    if CatalogIds(all) == {} {
      AssembleNoCatalog(col);
    } else {
      AssemblePages(col);
      var re := Reparented(col.pages, MinId(PagesIds(all)));
      forall id | id in re ensures id != MinId(PagesIds(all)) && id != MinId(CatalogIds(all)) {
        assert KindOf(all[id]) == PageKind;
      }
    }
  }

  /** A Pages-typed dictionary carries `/Type /Pages`. */
  lemma PagesTypeEntry(o: Object)
    requires o.Dictionary? && KindOf(o) == PagesKind
    ensures "Type" in o.dict && o.dict["Type"] == Name("Pages")
  {
  }

  /** The rebuilt Pages root takes `Type` from the first Pages dictionary, so it
      is itself Pages-typed. */
  lemma MergedRootIsPages(d: Dict, all: Store, pages: Store)
    requires PagesIds(all) != {}
    requires IsMergedPagesRoot(d, all, pages)
    ensures KindOf(Dictionary(d)) == PagesKind
  {
    var pagesId := MinId(PagesIds(all));
    var holders := Holders(all, all.Keys, "Type");
    PagesTypeEntry(all[pagesId]);
    assert pagesId in holders;
    PagesTypeEntry(all[MinId(holders)]);
    assert |"Type"| != |"Count"| && "Type"[0] != "Kids"[0];
    assert FirstWinsAt(d, all, all.Keys, "Type");
  }

  /** A patched Catalog keeps the Catalog's role. */
  lemma PatchedIsCatalog(cat: Dict, pagesId: ObjectId)
    requires KindOf(Dictionary(cat)) == CatalogKind
    ensures KindOf(Dictionary(CatalogDict(cat, pagesId))) == CatalogKind
  {
    assert |"Type"| != |"Pages"| && |"Type"| != |"Outlines"|;
    KindKeepsOnSet(cat, "Pages", Reference(pagesId));
    KindKeepsOnRemove(cat["Pages" := Reference(pagesId)], "Outlines");
  }

  /** In a complete merge the surviving Pages id holds a Pages-typed object, and
      the Catalog id, when it is written, a Catalog-typed one. */
  lemma AssembleRootKinds(col: Collected)
    requires PagesIds(col.objects) != {} && CatalogIds(col.objects) != {}
    ensures var all := col.objects; var r := Assemble(col).objects;
      var pagesId := MinId(PagesIds(all)); var catalogId := MinId(CatalogIds(all));
      && pagesId in r && KindOf(r[pagesId]) == PagesKind
      && (all[MaxId(CatalogIds(all))].Dictionary? ==> catalogId in r && KindOf(r[catalogId]) == CatalogKind)
  {
    var all := col.objects;
    var r := Assemble(col).objects;
    AssemblePagesRoot(col);
    MergedRootIsPages(r[MinId(PagesIds(all))].dict, all, col.pages);
    var last := all[MaxId(CatalogIds(all))];
    if last.Dictionary? {
      AssembleCatalog(col);
      PatchedIsCatalog(last.dict, MinId(PagesIds(all)));
    }
  }

  /** In a complete merge whose collected pages are all Page objects, every object
      other than the Pages root and the Catalog is a Page or has no structural
      role. */
  lemma AssembleKindAt(col: Collected, id: ObjectId)
    requires PagesIds(col.objects) != {} && CatalogIds(col.objects) != {}
    requires forall p :: p in col.pages ==> KindOf(col.pages[p]) == PageKind
    requires id in Assemble(col).objects
    requires id != MinId(PagesIds(col.objects))
    requires id == MinId(CatalogIds(col.objects)) ==> !col.objects[MaxId(CatalogIds(col.objects))].Dictionary?
    ensures KindOf(Assemble(col).objects[id]) == PageKind || KindOf(Assemble(col).objects[id]) == OtherKind
  {
    var all := col.objects;
    var pagesId := MinId(PagesIds(all));
    var re := Reparented(col.pages, pagesId);
    AssembleKeys(col);
    AssembleLayersAt(col, id);
    if id in re {
      KindKeepsOnSet(col.pages[id].dict, "Parent", Reference(pagesId));
    }
  }

  /** In a complete merge whose collected pages are all Page objects, the object
      at `id` is a Pages object only at the surviving Pages id, a Catalog only at
      the first Catalog id, and never an outline object. */
  lemma AssembleRoleAt(col: Collected, id: ObjectId)
    requires PagesIds(col.objects) != {} && CatalogIds(col.objects) != {}
    requires forall p :: p in col.pages ==> KindOf(col.pages[p]) == PageKind
    requires id in Assemble(col).objects
    ensures KindOf(Assemble(col).objects[id]) == PagesKind ==> id == MinId(PagesIds(col.objects))
    ensures KindOf(Assemble(col).objects[id]) == CatalogKind ==> id == MinId(CatalogIds(col.objects))
    ensures KindOf(Assemble(col).objects[id]) != OutlinesKind && KindOf(Assemble(col).objects[id]) != OutlineKind
  {
    var all := col.objects;
    if id == MinId(PagesIds(all)) || (id == MinId(CatalogIds(all)) && all[MaxId(CatalogIds(all))].Dictionary?) {
      AssembleRootKinds(col);
    } else {
      AssembleKindAt(col, id);
    }
  }
}
