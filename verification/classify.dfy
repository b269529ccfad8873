/**
 The classification pass over the pooled objects, in ascending id order: the first
 Catalog id is kept (with the content of the last Catalog seen), every Pages
 dictionary is folded into the first Pages id, Page / Outlines / Outline objects are
 skipped, and every other object is copied into the output store.
 */
module Classification {
  import opened Wrappers
  import opened Ids
  import opened Objects

  /** The pass's state: the Catalog candidate, the Pages candidate (always a
      dictionary) and the output store of copied objects. */
  datatype Classified = Classified(catalog: Option<(ObjectId, Object)>, pagesRoot: Option<(ObjectId, Dict)>, store: Store)

  /** One iteration of the pass. On a Pages collision the entries already gathered
      overwrite the new object's entries, so the earlier object wins. A Pages-typed
      object that is not a dictionary is skipped. */
  function Step(c: Classified, id: ObjectId, o: Object): Classified {
    match KindOf(o)
    case CatalogKind =>
      c.(catalog := Some((if c.catalog.Some? then c.catalog.value.0 else id, o)))
    case PagesKind =>
      if o.Dictionary? then
        var d := if c.pagesRoot.Some? then o.dict + c.pagesRoot.value.1 else o.dict;
        c.(pagesRoot := Some((if c.pagesRoot.Some? then c.pagesRoot.value.0 else id, d)))
      else c
    case PageKind => c
    case OutlinesKind => c
    case OutlineKind => c
    case OtherKind => c.(store := c.store[id := o])
  }

  /** The pass over the objects of `all` listed in `ids`, in that order. */
  function ClassifyIds(all: Store, ids: seq<ObjectId>): Classified
    requires forall i :: 0 <= i < |ids| ==> ids[i] in all
    decreases |ids|
  {
    if ids == [] then Classified(None, None, map[])
    else Step(ClassifyIds(all, ids[..|ids| - 1]), ids[|ids| - 1], all[ids[|ids| - 1]])
  }

  // ---------------------------------------------------------------------------
  // Reference definitions, over the objects of `all` whose ids are in `dom`

  /** The objects copied as they are: those of no structural role. */
  ghost function OthersIn(all: Store, dom: set<ObjectId>): Store {
    map id | id in dom && id in all && KindOf(all[id]) == OtherKind :: all[id]
  }

  /** The ids of Catalog-typed objects. */
  ghost function CatalogsIn(all: Store, dom: set<ObjectId>): set<ObjectId> {
    set id | id in dom && id in all && KindOf(all[id]) == CatalogKind
  }

  /** The ids of Pages-typed dictionaries. */
  ghost function PagesIn(all: Store, dom: set<ObjectId>): set<ObjectId> {
    set id | id in dom && id in all && KindOf(all[id]) == PagesKind && all[id].Dictionary?
  }

  /** The Pages dictionaries that hold key `k`. */
  ghost function Holders(all: Store, dom: set<ObjectId>, k: string): set<ObjectId> {
    set id | id in PagesIn(all, dom) && k in DictOf(all[id])
  }

  /** At key `k`, `d` agrees with the union of the Pages dictionaries in which, on
      a shared key, the entry of the dictionary with the smallest id wins. */
  ghost predicate FirstWinsAt(d: Dict, all: Store, dom: set<ObjectId>, k: string) {
    && (k in d <==> Holders(all, dom, k) != {})
    && (k in d ==> Holders(all, dom, k) != {} && d[k] == DictOf(all[MinId(Holders(all, dom, k))])[k])
  }

  /** `d` is that first-wins union at every key. */
  ghost predicate FirstWinsUnion(d: Dict, all: Store, dom: set<ObjectId>) {
    forall k :: FirstWinsAt(d, all, dom, k)
  }

  // ---------------------------------------------------------------------------
  // Properties of the pass over an ascending id list

  ghost predicate Ascending(all: Store, ids: seq<ObjectId>) {
    StrictlyIncreasing(ids) && forall i :: 0 <= i < |ids| ==> ids[i] in all
  }

  /** Splitting an ascending list before its last id `x`: the prefix is ascending
      and every id of it is below `x`. */
  lemma AscendingSplit(all: Store, pre: seq<ObjectId>, x: ObjectId)
    requires Ascending(all, pre + [x])
    ensures Ascending(all, pre) && x in all
    ensures Elems(pre + [x]) == Elems(pre) + {x}
    ensures forall y :: y in Elems(pre) ==> Lt(y, x)
  {
    var ids := pre + [x];
    assert ids[|pre|] == x;
    assert forall i :: 0 <= i < |pre| ==> pre[i] == ids[i];
    forall y | y in Elems(pre) ensures Lt(y, x) {
      var j :| 0 <= j < |pre| && pre[j] == y;
      assert ids[j] == y;
    }
  }

  /** The pass copies exactly the objects of no structural role, unchanged. */
  lemma {:induction false} ClassifyStore(all: Store, ids: seq<ObjectId>)
    requires Ascending(all, ids)
    ensures ClassifyIds(all, ids).store == OthersIn(all, Elems(ids))
    decreases |ids|
  {
    if ids != [] {
      var pre := ids[..|ids| - 1];
      assert ids == pre + [ids[|ids| - 1]];
      AscendingSplit(all, pre, ids[|ids| - 1]);
      ClassifyStore(all, pre);
    } else {
      assert OthersIn(all, Elems(ids)) == map[];
    }
  }

  /** The Catalog candidate is absent exactly when no object is Catalog-typed;
      otherwise its id is the smallest Catalog id and its content is the object at
      the largest one. */
  lemma {:induction false} ClassifyCatalog(all: Store, ids: seq<ObjectId>)
    requires Ascending(all, ids)
    ensures var c := ClassifyIds(all, ids); var cats := CatalogsIn(all, Elems(ids));
      && (c.catalog.None? <==> cats == {})
      && (c.catalog.Some? ==> c.catalog.value.0 == MinId(cats) && c.catalog.value.1 == all[MaxId(cats)])
    decreases |ids|
  {
    if ids != [] {
      var pre := ids[..|ids| - 1];
      var x := ids[|ids| - 1];
      assert ids == pre + [x];
      AscendingSplit(all, pre, x);
      ClassifyCatalog(all, pre);
      var before := CatalogsIn(all, Elems(pre));
      if KindOf(all[x]) == CatalogKind {
        assert CatalogsIn(all, Elems(ids)) == before + {x};
        MaxIdAddGreater(before, x);
        if before == {} {
          MinIdSingleton(x);
        } else {
          MinIdAddGreater(before, x);
        }
      } else {
        assert CatalogsIn(all, Elems(ids)) == before;
      }
    } else {
      assert CatalogsIn(all, Elems(ids)) == {};
    }
  }

  /** One step of the Pages fold keeps the first-wins union. */
  lemma PagesStep(all: Store, dom: set<ObjectId>, x: ObjectId, prev: Option<(ObjectId, Dict)>)
    requires x in all && x !in dom
    requires forall y :: y in dom ==> Lt(y, x)
    requires KindOf(all[x]) == PagesKind && all[x].Dictionary?
    requires prev.None? <==> PagesIn(all, dom) == {}
    requires prev.Some? ==> prev.value.0 == MinId(PagesIn(all, dom)) && FirstWinsUnion(prev.value.1, all, dom)
    ensures x in PagesIn(all, dom + {x})
    ensures var d := if prev.Some? then all[x].dict + prev.value.1 else all[x].dict;
      var root := if prev.Some? then prev.value.0 else x;
      root == MinId(PagesIn(all, dom + {x})) && FirstWinsUnion(d, all, dom + {x})
  {
    var dom' := dom + {x};
    var dx := all[x].dict;
    var d := if prev.Some? then dx + prev.value.1 else dx;
    assert PagesIn(all, dom') == PagesIn(all, dom) + {x};
    if prev.Some? {
      MinIdAddGreater(PagesIn(all, dom), x);
    } else {
      MinIdSingleton(x);
    }
    forall k ensures FirstWinsAt(d, all, dom', k) {
      var h := Holders(all, dom, k);
      if prev.Some? {
        assert FirstWinsAt(prev.value.1, all, dom, k);
      }
      assert Holders(all, dom', k) == h + (if k in dx then {x} else {});
      if prev.Some? && k in prev.value.1 {
        assert h != {};
        assert forall y :: y in h ==> Lt(y, x);
        if k in dx {
          MinIdAddGreater(h, x);
        }
      } else if k in dx {
        assert h == {};
        MinIdSingleton(x);
      }
    }
  }

  /** The Pages candidate is absent exactly when no Pages-typed dictionary exists;
      otherwise its id is the smallest such id and its dictionary is their union in
      which the smaller id wins each shared key. */
  lemma {:induction false} ClassifyPages(all: Store, ids: seq<ObjectId>)
    requires Ascending(all, ids)
    ensures var c := ClassifyIds(all, ids); var pages := PagesIn(all, Elems(ids));
      && (c.pagesRoot.None? <==> pages == {})
      && (c.pagesRoot.Some? ==> c.pagesRoot.value.0 == MinId(pages) && FirstWinsUnion(c.pagesRoot.value.1, all, Elems(ids)))
    decreases |ids|
  {
    if ids != [] {
      var pre := ids[..|ids| - 1];
      var x := ids[|ids| - 1];
      assert ids == pre + [x];
      AscendingSplit(all, pre, x);
      ClassifyPages(all, pre);
      var prev := ClassifyIds(all, pre).pagesRoot;
      assert x !in Elems(pre);
      if KindOf(all[x]) == PagesKind && all[x].Dictionary? {
        PagesStep(all, Elems(pre), x, prev);
      } else {
        assert PagesIn(all, Elems(ids)) == PagesIn(all, Elems(pre));
        forall k ensures Holders(all, Elems(ids), k) == Holders(all, Elems(pre), k) {
        }
        if prev.Some? {
          forall k ensures FirstWinsAt(prev.value.1, all, Elems(ids), k) {
            assert FirstWinsAt(prev.value.1, all, Elems(pre), k);
          }
        }
      }
    } else {
      assert PagesIn(all, Elems(ids)) == {};
    }
  }

  // ---------------------------------------------------------------------------
  // The pass over the whole pool

  /** The classification pass over every pooled object, in ascending id order. */
  function Classify(all: Store): (c: Classified)
    ensures c.store == OthersIn(all, all.Keys)
    ensures c.catalog.None? <==> CatalogsIn(all, all.Keys) == {}
    ensures c.catalog.Some? ==>
      && c.catalog.value.0 == MinId(CatalogsIn(all, all.Keys))
      && c.catalog.value.1 == all[MaxId(CatalogsIn(all, all.Keys))]
    ensures c.pagesRoot.None? <==> PagesIn(all, all.Keys) == {}
    ensures c.pagesRoot.Some? ==> c.pagesRoot.value.0 == MinId(PagesIn(all, all.Keys))
  {
    var ids := SortedIds(all.Keys);
    assert Elems(ids) == all.Keys;
    ClassifyStore(all, ids);
    ClassifyCatalog(all, ids);
    ClassifyPages(all, ids);
    ClassifyIds(all, ids)
  }

  /** The surviving Pages dictionary is the first-wins union of all Pages
      dictionaries. */
  lemma ClassifyUnion(all: Store)
    requires PagesIn(all, all.Keys) != {}
    ensures Classify(all).pagesRoot.Some?
    ensures FirstWinsUnion(Classify(all).pagesRoot.value.1, all, all.Keys)
  {
    var ids := SortedIds(all.Keys);
    assert Elems(ids) == all.Keys;
    ClassifyPages(all, ids);
  }
}
