/**
 Properties of a whole merge, stated over the sources: the page count and `Kids`,
 parent linkage, which structural objects survive, the Catalog and trailer, and
 the two soft-degrade exits.
 */
module MergeProperties {
  import opened Wrappers
  import opened Ids
  import opened Objects
  import opened Collect
  import opened Classification
  import opened Finalize
  import opened Merge

  /** A successful merge is the passes after the source loop, run on what the
      loop collected: the pooled objects of all sources and the found pages. */
  lemma MergeUnfold(sources: seq<Source>, r: Merged)
    requires MergeDocuments(sources) == Success(r)
    ensures CollectAll(sources).Success? && r == Assemble(CollectAll(sources).value)
    ensures CollectAll(sources).value.objects == AllObjects(sources)
    ensures CollectAll(sources).value.pages.Keys == AllFound(sources)
  {
    CollectAllPages(sources);
  }

  /** In a complete merge the Pages root's `Kids` references every found page
      exactly once, in ascending id order (not in request order: repeated requests
      collapse), and `Count` is their number as a u32, so below 2^32 pages it is
      the length of `Kids`. */
  lemma MergeKids(sources: seq<Source>, r: Merged)
    requires MergeDocuments(sources) == Success(r)
    requires r.status == Complete
    ensures var all := AllObjects(sources);
      && PagesIds(all) != {}
      && var pagesId := MinId(PagesIds(all));
      && pagesId in r.objects && r.objects[pagesId].Dictionary?
      && "Kids" in r.objects[pagesId].dict && r.objects[pagesId].dict["Kids"].Array?
      && AscendingRefs(r.objects[pagesId].dict["Kids"].items, AllFound(sources))
      && "Count" in r.objects[pagesId].dict
      && r.objects[pagesId].dict["Count"] == Integer(|AllFound(sources)| % U32_MODULUS)
      && (|AllFound(sources)| < U32_MODULUS ==>
            r.objects[pagesId].dict["Count"] == Integer(|r.objects[pagesId].dict["Kids"].items|))
  {
    MergeUnfold(sources, r);
    var col := CollectAll(sources).value;
    AssembleStatus(col);
    AssemblePagesRoot(col);
    var kids := KidsOf(col.pages);
    assert |col.pages| == |AllFound(sources)| by {
      assert |col.pages| == |col.pages.Keys|;
    }
    forall id | Reference(id) in kids ensures id in AllFound(sources) {
      var i :| 0 <= i < |kids| && kids[i] == Reference(id);
    }
    SmallCountFits(|AllFound(sources)|);
  }

  /** After a merge that got past the Pages check, every found page that is a
      dictionary is stored under its own id with `Parent` naming the surviving
      Pages id (`WithParentKeeps` says that nothing else changes). This needs the
      renumbering assumption (so a page id is no other source's object) and page
      maps that name Page objects (so a page is never the Pages root or the
      Catalog). */
  lemma MergeParents(sources: seq<Source>, r: Merged)
    requires Renumbered(sources, 1) && PageMapsTyped(sources)
    requires MergeDocuments(sources) == Success(r)
    requires r.status != NoPagesRoot
    ensures var all := AllObjects(sources);
      && PagesIds(all) != {}
      && var pages := FoundPages(sources);
      && forall id :: id in pages && pages[id].Dictionary? ==>
           id in r.objects && r.objects[id] == Dictionary(WithParent(pages[id].dict, MinId(PagesIds(all))))
  {
    MergeUnfold(sources, r);
    var col := CollectAll(sources).value;
    RenumberedDisjoint(sources, 1);
    CollectedPagesDisjoint(sources);
    CollectedPagesTyped(sources);
    AssembleStatus(col);
    var all := col.objects;
    assert PagesIds(all) != {};
    var pages := FoundPages(sources);
    assert col.pages == pages;
    assert forall id :: id in col.pages ==> id in col.objects && col.objects[id] == col.pages[id];
    AssembleTypedPages(col);
    var re := Reparented(pages, MinId(PagesIds(all)));
    forall id | id in pages && pages[id].Dictionary?
      ensures id in r.objects && r.objects[id] == Dictionary(WithParent(pages[id].dict, MinId(PagesIds(all))))
    {
      assert id in re;
    }
  }

  /** In a complete merge the trailer's `Root` is the smallest Catalog id; when the
      last Catalog seen is a dictionary, that id holds it with `Pages` naming the
      surviving Pages id, no `Outlines`, and every other key unchanged. */
  lemma MergeCatalog(sources: seq<Source>, r: Merged)
    requires MergeDocuments(sources) == Success(r)
    requires r.status == Complete
    ensures var all := AllObjects(sources);
      && PagesIds(all) != {} && CatalogIds(all) != {}
      && var catalogId := MinId(CatalogIds(all));
      && var last := all[MaxId(CatalogIds(all))];
      && r.root == Some(catalogId)
      && (last.Dictionary? ==>
            && catalogId in r.objects
            && r.objects[catalogId] == Dictionary(CatalogDict(last.dict, MinId(PagesIds(all)))))
  {
    MergeUnfold(sources, r);
    var col := CollectAll(sources).value;
    AssembleStatus(col);
    if col.objects[MaxId(CatalogIds(col.objects))].Dictionary? {
      AssembleCatalog(col);
    }
  }

  /** Without any Pages dictionary the merge returns early: the result holds only
      the objects of no structural role, no page, no Pages root and no `Root`. */
  lemma MergeNoPagesRoot(sources: seq<Source>, r: Merged)
    requires MergeDocuments(sources) == Success(r)
    requires PagesIds(AllObjects(sources)) == {}
    ensures r.status == NoPagesRoot && r.root.None?
    ensures r.objects == Others(AllObjects(sources))
  {
    MergeUnfold(sources, r);
    var col := CollectAll(sources).value;
    AssembleStatus(col);
    AssembleNoPagesRoot(col);
  }

  /** With a Pages dictionary but no Catalog the merge returns after re-parenting:
      the result holds the objects of no structural role and the re-parented found
      pages, no Pages root and no `Root`. */
  lemma MergeNoCatalog(sources: seq<Source>, r: Merged)
    requires Renumbered(sources, 1)
    requires MergeDocuments(sources) == Success(r)
    requires PagesIds(AllObjects(sources)) != {} && CatalogIds(AllObjects(sources)) == {}
    ensures r.status == NoCatalog && r.root.None?
    ensures r.objects == Others(AllObjects(sources)) + Reparented(FoundPages(sources), MinId(PagesIds(AllObjects(sources))))
  {
    MergeUnfold(sources, r);
    var col := CollectAll(sources).value;
    RenumberedDisjoint(sources, 1);
    CollectedPagesDisjoint(sources);
    AssembleStatus(col);
    AssembleNoCatalog(col);
  }

  /** A complete merge leaves exactly one Pages object, the surviving Pages id,
      at most one Catalog, the trailer's `Root` (present when the last Catalog
      seen is a dictionary), and no outline object of the sources: every other
      object is a Page or has no structural role. */
  lemma MergeRoles(sources: seq<Source>, r: Merged)
    requires PageMapsTyped(sources)
    requires MergeDocuments(sources) == Success(r)
    requires r.status == Complete
    ensures var all := AllObjects(sources);
      && PagesIds(all) != {} && CatalogIds(all) != {}
      && var pagesId := MinId(PagesIds(all));
      && var catalogId := MinId(CatalogIds(all));
      && pagesId in r.objects && KindOf(r.objects[pagesId]) == PagesKind
      && (all[MaxId(CatalogIds(all))].Dictionary? ==>
            catalogId in r.objects && KindOf(r.objects[catalogId]) == CatalogKind)
      && (forall id :: id in r.objects && KindOf(r.objects[id]) == PagesKind ==> id == pagesId)
      && (forall id :: id in r.objects && KindOf(r.objects[id]) == CatalogKind ==> id == catalogId)
      && (forall id :: id in r.objects ==>
            KindOf(r.objects[id]) != OutlinesKind && KindOf(r.objects[id]) != OutlineKind)
  {
    MergeUnfold(sources, r);
    var col := CollectAll(sources).value;
    var all := col.objects;
    CollectedPagesTyped(sources);
    AssembleStatus(col);
    AssembleRootKinds(col);
    forall id | id in r.objects
      ensures KindOf(r.objects[id]) == PagesKind ==> id == MinId(PagesIds(all))
      ensures KindOf(r.objects[id]) == CatalogKind ==> id == MinId(CatalogIds(all))
      ensures KindOf(r.objects[id]) != OutlinesKind && KindOf(r.objects[id]) != OutlineKind
    {
      AssembleRoleAt(col, id);
    }
  }

  /** Every object of no structural role in the sources is carried into the result
      unchanged, whichever way the merge ends. A page never shadows one, given the
      renumbering assumption and page maps that name Page objects. */
  lemma MergeKeepsOthers(sources: seq<Source>, r: Merged)
    requires Renumbered(sources, 1) && PageMapsTyped(sources)
    requires MergeDocuments(sources) == Success(r)
    ensures var all := AllObjects(sources);
      forall id :: id in Others(all) ==> id in r.objects && r.objects[id] == all[id]
  {
    MergeUnfold(sources, r);
    var col := CollectAll(sources).value;
    var all := col.objects;
    RenumberedDisjoint(sources, 1);
    CollectedPagesDisjoint(sources);
    CollectedPagesTyped(sources);
    AssembleStatus(col);
    if PagesIds(all) == {} {
      AssembleNoPagesRoot(col);
    } else {
      var re := Reparented(col.pages, MinId(PagesIds(all)));
      forall id | id in Others(all) && id in re ensures false {
      }
      if CatalogIds(all) == {} {
        AssembleNoCatalog(col);
      } else {
        AssembleOthers(col);
      }
    }
  }

  /** The ids of a complete merge: those of the objects of no structural role, of
      the found pages that are dictionaries, the surviving Pages id, and the first
      Catalog id when the last Catalog seen is a dictionary. Nothing else. */
  lemma MergeKeys(sources: seq<Source>, r: Merged)
    requires Renumbered(sources, 1)
    requires MergeDocuments(sources) == Success(r)
    requires r.status == Complete
    ensures var all := AllObjects(sources);
      && PagesIds(all) != {} && CatalogIds(all) != {}
      && r.objects.Keys ==
           Others(all).Keys + PageDictIds(FoundPages(sources))
           + {MinId(PagesIds(all))}
           + (if all[MaxId(CatalogIds(all))].Dictionary? then {MinId(CatalogIds(all))} else {})
  {
    MergeUnfold(sources, r);
    var col := CollectAll(sources).value;
    RenumberedDisjoint(sources, 1);
    CollectedPagesDisjoint(sources);
    AssembleStatus(col);
    AssembleKeys(col);
    ReparentedKeys(col.pages, MinId(PagesIds(col.objects)));
  }

  /** In a complete merge the Pages root holds, besides `Count` and `Kids`, the
      union of every Pages dictionary of the sources, where on a shared key the
      entry of the dictionary with the smallest id wins. */
  lemma MergePagesUnion(sources: seq<Source>, r: Merged)
    requires MergeDocuments(sources) == Success(r)
    requires r.status == Complete
    ensures var all := AllObjects(sources);
      && PagesIds(all) != {}
      && var pagesId := MinId(PagesIds(all));
      && pagesId in r.objects && r.objects[pagesId].Dictionary?
      && forall k :: k != "Count" && k != "Kids" ==> FirstWinsAt(r.objects[pagesId].dict, all, all.Keys, k)
  {
    MergeUnfold(sources, r);
    var col := CollectAll(sources).value;
    AssembleStatus(col);
    AssemblePagesRoot(col);
  }

  /** The ids of the dictionaries among `pages`. */
  ghost function PageDictIds(pages: Store): set<ObjectId> {
    set id | id in pages && pages[id].Dictionary?
  }

  lemma ReparentedKeys(pages: Store, root: ObjectId)
    ensures Reparented(pages, root).Keys == PageDictIds(pages)
  {
  }
}
