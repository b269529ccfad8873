/**
 The passes after classification: re-parenting the collected pages under the
 surviving Pages id, and rebuilding the surviving Pages and Catalog dictionaries.
 */
module Finalize {
  import opened Ids
  import opened Objects

  /** `as u32`: the page count is written as an unsigned 32-bit integer. */
  const U32_MODULUS: nat := 0x1_0000_0000

  /** A page dictionary with its `Parent` pointed at `root`. */
  function WithParent(d: Dict, root: ObjectId): Dict {
    d["Parent" := Reference(root)]
  }

  /** The re-parenting pass over the collected pages listed in `ids`, in order:
      each page that is a dictionary is written into `store` under its own id with
      `Parent` set; a page that is not a dictionary is skipped. */
  function ReparentIds(store: Store, pages: Store, ids: seq<ObjectId>, root: ObjectId): Store
    requires forall i :: 0 <= i < |ids| ==> ids[i] in pages
    decreases |ids|
  {
    if ids == [] then store
    else
      var id := ids[|ids| - 1];
      var s := ReparentIds(store, pages, ids[..|ids| - 1], root);
      if pages[id].Dictionary? then s[id := Dictionary(WithParent(pages[id].dict, root))] else s
  }

  /** What the pass writes: every collected page that is a dictionary, re-parented. */
  ghost function Reparented(pages: Store, root: ObjectId): Store {
    ReparentedIn(pages, pages.Keys, root)
  }

  /** The same, for the collected pages whose ids are in `ids`. */
  ghost function ReparentedIn(pages: Store, ids: set<ObjectId>, root: ObjectId): Store {
    map id | id in ids && id in pages && pages[id].Dictionary? :: Dictionary(WithParent(pages[id].dict, root))
  }

  lemma {:induction false} ReparentIdsSpec(store: Store, pages: Store, ids: seq<ObjectId>, root: ObjectId)
    requires forall i :: 0 <= i < |ids| ==> ids[i] in pages
    ensures ReparentIds(store, pages, ids, root) == store + ReparentedIn(pages, Elems(ids), root)
    decreases |ids|
  {
    if ids == [] {
      assert ReparentedIn(pages, Elems(ids), root) == map[];
    } else {
      var pre := ids[..|ids| - 1];
      var x := ids[|ids| - 1];
      assert ids == pre + [x];
      assert Elems(ids) == Elems(pre) + {x};
      ReparentIdsSpec(store, pages, pre, root);
    }
  }

  /** The re-parenting pass over all collected pages, in ascending id order. The
      order does not matter: the result is the store with every collected page
      dictionary written over it, re-parented, and nothing else changed. */
  function Reparent(store: Store, pages: Store, root: ObjectId): (r: Store)
    ensures r == store + Reparented(pages, root)
  {
    var ids := SortedIds(pages.Keys);
    ReparentIdsSpec(store, pages, ids, root);
    assert Elems(ids) == pages.Keys;
    ReparentIds(store, pages, ids, root)
  }

  /** A re-parented page keeps every key but `Parent`, which names the root. */
  lemma WithParentKeeps(d: Dict, root: ObjectId)
    ensures WithParent(d, root)["Parent"] == Reference(root)
    ensures forall k :: k != "Parent" ==> (k in WithParent(d, root) <==> k in d)
    ensures forall k :: k != "Parent" && k in d ==> WithParent(d, root)[k] == d[k]
  {
  }

  /** The `Kids` array: a reference to each id, in the given order. */
  function KidRefs(ids: seq<ObjectId>): (kids: seq<Value>)
    ensures |kids| == |ids|
    ensures forall i :: 0 <= i < |ids| ==> kids[i] == Reference(ids[i])
  {
    seq(|ids|, i requires 0 <= i < |ids| => Reference(ids[i]))
  }

  /** `items` references every id of `ids` exactly once, in ascending id order. */
  ghost predicate AscendingRefs(items: seq<Value>, ids: set<ObjectId>) {
    && (forall i :: 0 <= i < |items| ==> items[i].Reference? && items[i].id in ids)
    && (forall id :: id in ids ==> Reference(id) in items)
    && (forall i, j :: 0 <= i < j < |items| ==> Lt(items[i].id, items[j].id))
    && |items| == |ids|
  }

  /** The `Kids` of the rebuilt Pages root: a reference to every collected page,
      each once, in ascending id order. */
  function KidsOf(pages: Store): (kids: seq<Value>)
    ensures |kids| == |pages|
    ensures AscendingRefs(kids, pages.Keys)
  {
    var ids := SortedIds(pages.Keys);
    var kids := KidRefs(ids);
    forall id | id in pages ensures Reference(id) in kids {
      var i :| 0 <= i < |ids| && ids[i] == id;
      assert kids[i] == Reference(id);
    }
    kids
  }

  /** A count below 2^32 survives the cast to u32. */
  lemma SmallCountFits(n: nat)
    ensures n < U32_MODULUS ==> n % U32_MODULUS == n
  {
  }

  /** The rebuilt Pages root: `Count` is the number of collected pages (as a u32)
      and `Kids` lists them (see `KidsOf`), so that `Count` equals the length of
      `Kids`; all other keys are kept. */
  function PagesRootDict(root: Dict, pages: Store): (d: Dict)
    ensures "Count" in d && "Kids" in d
    ensures d["Count"] == Integer(|pages| % U32_MODULUS)
    ensures d["Kids"] == Array(KidsOf(pages))
    ensures |pages| < U32_MODULUS ==> d["Count"] == Integer(|d["Kids"].items|)
    ensures forall k :: k != "Count" && k != "Kids" ==> (k in d <==> k in root)
    ensures forall k :: k != "Count" && k != "Kids" && k in root ==> d[k] == root[k]
  {
    assert |"Count"| != |"Kids"|;
    var kids := KidsOf(pages);
    var d := root["Count" := Integer(|pages| % U32_MODULUS)]["Kids" := Array(kids)];
    assert d["Kids"].items == kids;
    SmallCountFits(|pages|);
    d
  }

  /** The rebuilt Catalog: `Pages` references the surviving Pages id, `Outlines` is
      gone, and all other keys are kept. */
  function CatalogDict(cat: Dict, pagesId: ObjectId): (d: Dict)
    ensures "Pages" in d && d["Pages"] == Reference(pagesId)
    ensures "Outlines" !in d
    ensures forall k :: k != "Pages" && k != "Outlines" ==> (k in d <==> k in cat)
    ensures forall k :: k != "Pages" && k != "Outlines" && k in cat ==> d[k] == cat[k]
  {
    cat["Pages" := Reference(pagesId)] - {"Outlines"}
  }
}
