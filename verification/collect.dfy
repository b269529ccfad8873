/**
 The per-source loop of the merge: for every source, look each requested page number
 up in the source's page map, keep the page objects found (keyed by id, so repeats
 collapse), add one bookmark at the first page found, and pool all of the source's
 objects.
 */
module Collect {
  import opened Wrappers
  import opened Ids
  import opened Objects
  import opened Titles

  /** One source document after loading and renumbering: its objects, the page map
      its page tree resolves to (1-based page number to page id), the requested page
      numbers in request order, and the largest object number it now uses. */
  datatype Source = Source(objects: Store, pageMap: map<nat, ObjectId>, requested: seq<nat>, maxId: nat)

  /** The error a failed object lookup raises. */
  datatype Error = ObjectNotFound(id: ObjectId)

  /** A bookmark handed to the output document: title, format flags and target page.
      Its colour is a constant the model does not carry. */
  datatype Bookmark = Bookmark(title: string, format: nat, target: ObjectId)

  /** The state of the page loop of one source. `pagenum` is the running bookmark
      counter and `first` is true until the source has produced its bookmark. */
  datatype Progress = Progress(pages: Store, bookmarks: seq<Bookmark>, pagenum: nat, first: bool)

  /** Everything gathered over the sources processed so far. */
  datatype Collected = Collected(pages: Store, objects: Store, bookmarks: seq<Bookmark>, pagenum: nat)

  /** One iteration of the page loop, for requested page number `n`. The object
      lookup is a plain map lookup: a stored Reference is not followed. */
  function Visit(src: Source, p: Progress, n: nat): Result<Progress, Error> {
    if n !in src.pageMap then Success(p)
    else
      var id := src.pageMap[n];
      var p1 :=
        if p.first then
          p.(bookmarks := p.bookmarks + [Bookmark(PageTitle(p.pagenum), 0, id)],
             first := false,
             pagenum := p.pagenum + 1)
        else p;
      if id in src.objects then Success(p1.(pages := p1.pages[id := src.objects[id]]))
      else Failure(ObjectNotFound(id))
  }

  /** The page loop over the requested numbers `reqs`, in order, from state `p0`. */
  function VisitAll(src: Source, reqs: seq<nat>, p0: Progress): Result<Progress, Error>
    decreases |reqs|
  {
    if reqs == [] then Success(p0)
    else
      match VisitAll(src, reqs[..|reqs| - 1], p0)
      case Failure(e) => Failure(e)
      case Success(p) => Visit(src, p, reqs[|reqs| - 1])
  }

  /** Processing one source: its page loop starts with `first` set, then all of its
      objects join the pool (a later source's object replaces an earlier one at the
      same id). */
  function CollectSource(acc: Collected, src: Source): Result<Collected, Error> {
    match VisitAll(src, src.requested, Progress(acc.pages, acc.bookmarks, acc.pagenum, true))
    case Failure(e) => Failure(e)
    case Success(p) => Success(Collected(p.pages, acc.objects + src.objects, p.bookmarks, p.pagenum))
  }

  /** The whole source loop; the bookmark counter starts at 1. */
  function CollectAll(sources: seq<Source>): Result<Collected, Error>
    decreases |sources|
  {
    if sources == [] then Success(Collected(map[], map[], [], 1))
    else
      match CollectAll(sources[..|sources| - 1])
      case Failure(e) => Failure(e)
      case Success(acc) => CollectSource(acc, sources[|sources| - 1])
  }

  // ---------------------------------------------------------------------------
  // Reference definitions

  /** Some requested number is in the page map but its id has no object. */
  ghost predicate Broken(src: Source, reqs: seq<nat>) {
    exists i :: 0 <= i < |reqs| && reqs[i] in src.pageMap && src.pageMap[reqs[i]] !in src.objects
  }

  ghost predicate AnyBroken(sources: seq<Source>) {
    exists i :: 0 <= i < |sources| && Broken(sources[i], sources[i].requested)
  }

  /** The ids of the requested pages that the page map knows. */
  ghost function FoundIds(src: Source, reqs: seq<nat>): set<ObjectId> {
    set n | n in reqs && n in src.pageMap :: src.pageMap[n]
  }

  /** The found ids that have an object, with that object. */
  ghost function Fetched(src: Source, reqs: seq<nat>): Store {
    map id | id in FoundIds(src, reqs) && id in src.objects :: src.objects[id]
  }

  /** The page id of the first requested number the page map knows, in request order. */
  function FirstFound(pageMap: map<nat, ObjectId>, reqs: seq<nat>): Option<ObjectId> {
    if reqs == [] then None
    else if reqs[0] in pageMap then Some(pageMap[reqs[0]])
    else FirstFound(pageMap, reqs[1..])
  }

  /** The bookmark a source contributes, given its anchor and the current counter. */
  function AnchorMark(anchor: Option<ObjectId>, pagenum: nat): seq<Bookmark> {
    match anchor
    case Some(id) => [Bookmark(PageTitle(pagenum), 0, id)]
    case None => []
  }

  /** The anchors of all sources that found at least one page, in source order. */
  function Anchors(sources: seq<Source>): seq<ObjectId>
    decreases |sources|
  {
    if sources == [] then []
    else
      var last := sources[|sources| - 1];
      Anchors(sources[..|sources| - 1])
        + match FirstFound(last.pageMap, last.requested) case Some(id) => [id] case None => []
  }

  /** Bookmark `i` (0-based) targets anchor `i` and is titled `Page_<i+1>`. */
  function NumberedMarks(anchors: seq<ObjectId>): seq<Bookmark> {
    seq(|anchors|, i requires 0 <= i < |anchors| => Bookmark(PageTitle(i + 1), 0, anchors[i]))
  }

  /** The ids of every source's found pages. */
  ghost function AllFound(sources: seq<Source>): set<ObjectId>
    decreases |sources|
  {
    if sources == [] then {}
    else
      var last := sources[|sources| - 1];
      AllFound(sources[..|sources| - 1]) + FoundIds(last, last.requested)
  }

  /** The pooled objects of all sources, later sources winning. */
  ghost function AllObjects(sources: seq<Source>): Store
    decreases |sources|
  {
    if sources == [] then map[] else AllObjects(sources[..|sources| - 1]) + sources[|sources| - 1].objects
  }

  // ---------------------------------------------------------------------------
  // Properties

  lemma {:induction false} FirstFoundSnoc(pageMap: map<nat, ObjectId>, reqs: seq<nat>, n: nat)
    ensures FirstFound(pageMap, reqs + [n]) ==
      if FirstFound(pageMap, reqs).Some? then FirstFound(pageMap, reqs)
      else if n in pageMap then Some(pageMap[n]) else None
  {
    if reqs != [] {
      assert (reqs + [n])[1..] == reqs[1..] + [n];
      FirstFoundSnoc(pageMap, reqs[1..], n);
    }
  }

  /** `FirstFound` is the page of the earliest requested number the page map knows. */
  lemma {:induction false} FirstFoundIsEarliest(pageMap: map<nat, ObjectId>, reqs: seq<nat>)
    ensures FirstFound(pageMap, reqs).None? <==> forall i :: 0 <= i < |reqs| ==> reqs[i] !in pageMap
    ensures FirstFound(pageMap, reqs).Some? ==>
      exists i :: 0 <= i < |reqs| && reqs[i] in pageMap && FirstFound(pageMap, reqs).value == pageMap[reqs[i]]
        && forall j :: 0 <= j < i ==> reqs[j] !in pageMap
  {
    if reqs != [] && reqs[0] !in pageMap {
      FirstFoundIsEarliest(pageMap, reqs[1..]);
      if FirstFound(pageMap, reqs[1..]).Some? {
        var i :| 0 <= i < |reqs[1..]| && reqs[1..][i] in pageMap
          && FirstFound(pageMap, reqs[1..]).value == pageMap[reqs[1..][i]]
          && forall j :: 0 <= j < i ==> reqs[1..][j] !in pageMap;
        assert reqs[i + 1] in pageMap && forall j :: 0 <= j < i + 1 ==> reqs[j] !in pageMap;
      } else {
        assert forall i :: 1 <= i < |reqs| ==> reqs[i] == reqs[1..][i - 1];
      }
    } else if reqs != [] {
      assert reqs[0] in pageMap;
    }
  }

  lemma BrokenSnoc(src: Source, reqs: seq<nat>, n: nat)
    ensures Broken(src, reqs + [n]) <==>
      Broken(src, reqs) || (n in src.pageMap && src.pageMap[n] !in src.objects)
  {
    var all := reqs + [n];
    if Broken(src, all) {
      var i :| 0 <= i < |all| && all[i] in src.pageMap && src.pageMap[all[i]] !in src.objects;
      if i < |reqs| { assert reqs[i] == all[i]; }
    }
    if Broken(src, reqs) {
      var i :| 0 <= i < |reqs| && reqs[i] in src.pageMap && src.pageMap[reqs[i]] !in src.objects;
      assert all[i] == reqs[i];
    }
    if n in src.pageMap && src.pageMap[n] !in src.objects {
      assert all[|reqs|] == n;
    }
  }

  lemma FetchedSnoc(src: Source, reqs: seq<nat>, n: nat)
    ensures Fetched(src, reqs + [n]) ==
      if n in src.pageMap && src.pageMap[n] in src.objects
      then Fetched(src, reqs)[src.pageMap[n] := src.objects[src.pageMap[n]]]
      else Fetched(src, reqs)
  {
    assert FoundIds(src, reqs + [n]) == FoundIds(src, reqs) + (if n in src.pageMap then {src.pageMap[n]} else {});
  }

  /** When no requested page is broken, every found id has an object. */
  lemma FoundIdsFetched(src: Source, reqs: seq<nat>)
    requires !Broken(src, reqs)
    ensures Fetched(src, reqs).Keys == FoundIds(src, reqs)
  {
    forall id | id in FoundIds(src, reqs) ensures id in src.objects {
      var n :| n in reqs && n in src.pageMap && src.pageMap[n] == id;
      var i :| 0 <= i < |reqs| && reqs[i] == n;
    }
  }

  /** The page loop of one source fails exactly when a requested number is in the
      page map but its id has no object. */
  lemma {:induction false} VisitAllFailure(src: Source, reqs: seq<nat>, p0: Progress)
    ensures VisitAll(src, reqs, p0).Failure? <==> Broken(src, reqs)
    decreases |reqs|
  {
    if reqs != [] {
      var pre := reqs[..|reqs| - 1];
      assert reqs == pre + [reqs[|reqs| - 1]];
      VisitAllFailure(src, pre, p0);
      BrokenSnoc(src, pre, reqs[|reqs| - 1]);
    }
  }

  /** A successful page loop adds the found pages' objects, keyed by id, to the pages
      collected so far: a page requested twice is collected once. */
  lemma {:induction false} VisitAllPages(src: Source, reqs: seq<nat>, p0: Progress)
    ensures VisitAll(src, reqs, p0).Success? ==>
      VisitAll(src, reqs, p0).value.pages == p0.pages + Fetched(src, reqs)
    decreases |reqs|
  {
    if reqs == [] {
      assert Fetched(src, reqs) == map[];
    } else {
      var pre := reqs[..|reqs| - 1];
      assert reqs == pre + [reqs[|reqs| - 1]];
      VisitAllPages(src, pre, p0);
      FetchedSnoc(src, pre, reqs[|reqs| - 1]);
    }
  }

  /** A page loop started with `first` set adds exactly one bookmark, titled with the
      current counter and anchored at the first found page in request order, when
      any requested page was found, and none otherwise. */
  lemma {:induction false} VisitAllMarks(src: Source, reqs: seq<nat>, p0: Progress)
    requires p0.first
    ensures VisitAll(src, reqs, p0).Success? ==>
      var p := VisitAll(src, reqs, p0).value;
      var anchor := FirstFound(src.pageMap, reqs);
      && p.bookmarks == p0.bookmarks + AnchorMark(anchor, p0.pagenum)
      && p.pagenum == p0.pagenum + |AnchorMark(anchor, p0.pagenum)|
      && p.first == anchor.None?
    decreases |reqs|
  {
    if reqs != [] {
      var pre := reqs[..|reqs| - 1];
      assert reqs == pre + [reqs[|reqs| - 1]];
      VisitAllMarks(src, pre, p0);
      FirstFoundSnoc(src.pageMap, pre, reqs[|reqs| - 1]);
    }
  }

  lemma AnyBrokenSnoc(sources: seq<Source>, src: Source)
    ensures AnyBroken(sources + [src]) <==> AnyBroken(sources) || Broken(src, src.requested)
  {
    var all := sources + [src];
    if AnyBroken(all) {
      var i :| 0 <= i < |all| && Broken(all[i], all[i].requested);
      if i < |sources| { assert sources[i] == all[i]; }
    }
    if AnyBroken(sources) {
      var i :| 0 <= i < |sources| && Broken(sources[i], sources[i].requested);
      assert all[i] == sources[i];
    }
    if Broken(src, src.requested) {
      assert all[|sources|] == src;
    }
  }

  /** The source loop fails exactly when some source's page loop does. */
  lemma {:induction false} CollectAllFailure(sources: seq<Source>)
    ensures CollectAll(sources).Failure? <==> AnyBroken(sources)
    decreases |sources|
  {
    if sources != [] {
      var pre := sources[..|sources| - 1];
      var src := sources[|sources| - 1];
      assert sources == pre + [src];
      CollectAllFailure(pre);
      AnyBrokenSnoc(pre, src);
      if CollectAll(pre).Success? {
        var acc := CollectAll(pre).value;
        VisitAllFailure(src, src.requested, Progress(acc.pages, acc.bookmarks, acc.pagenum, true));
      }
    }
  }

  /** The pages a collected id holds came from a source that found it. */
  ghost predicate FromSomeSource(sources: seq<Source>, pages: Store) {
    forall id :: id in pages ==>
      exists i :: 0 <= i < |sources| && id in FoundIds(sources[i], sources[i].requested)
        && id in sources[i].objects && pages[id] == sources[i].objects[id]
  }

  /** A successful source loop collects exactly the found pages of all sources, each
      the object a source that found it holds under that id, and pools every
      source's objects. */
  lemma {:induction false} CollectAllPages(sources: seq<Source>)
    ensures CollectAll(sources).Success? ==>
      && CollectAll(sources).value.pages.Keys == AllFound(sources)
      && FromSomeSource(sources, CollectAll(sources).value.pages)
      && CollectAll(sources).value.objects == AllObjects(sources)
    decreases |sources|
  {
    if sources != [] && CollectAll(sources).Success? {
      var pre := sources[..|sources| - 1];
      var src := sources[|sources| - 1];
      CollectAllPages(pre);
      CollectAllFailure(sources);
      AnyBrokenSnoc(pre, src);
      assert sources == pre + [src];
      var acc := CollectAll(pre).value;
      var p0 := Progress(acc.pages, acc.bookmarks, acc.pagenum, true);
      VisitAllPages(src, src.requested, p0);
      FoundIdsFetched(src, src.requested);
      var c := CollectAll(sources).value;
      forall id | id in c.pages
        ensures exists i :: 0 <= i < |sources| && id in FoundIds(sources[i], sources[i].requested)
                  && id in sources[i].objects && c.pages[id] == sources[i].objects[id]
      {
        if id in Fetched(src, src.requested) {
          assert sources[|sources| - 1] == src;
        } else {
          var i :| 0 <= i < |pre| && id in FoundIds(pre[i], pre[i].requested)
            && id in pre[i].objects && acc.pages[id] == pre[i].objects[id];
          assert sources[i] == pre[i];
        }
      }
    }
  }

  /** A successful source loop adds one bookmark per source that found a page,
      anchored at that source's first found page and titled `Page_1`, `Page_2`, ...
      in source order, and leaves the counter one past the last title. */
  lemma {:induction false} CollectAllMarks(sources: seq<Source>)
    ensures CollectAll(sources).Success? ==>
      && CollectAll(sources).value.bookmarks == NumberedMarks(Anchors(sources))
      && CollectAll(sources).value.pagenum == |CollectAll(sources).value.bookmarks| + 1
    decreases |sources|
  {
    if sources != [] && CollectAll(sources).Success? {
      var pre := sources[..|sources| - 1];
      var src := sources[|sources| - 1];
      CollectAllMarks(pre);
      var acc := CollectAll(pre).value;
      VisitAllMarks(src, src.requested, Progress(acc.pages, acc.bookmarks, acc.pagenum, true));
      var c := CollectAll(sources).value;
      match FirstFound(src.pageMap, src.requested)
      case None =>
        assert Anchors(sources) == Anchors(pre);
      case Some(a) =>
        assert Anchors(sources) == Anchors(pre) + [a];
        assert c.bookmarks == NumberedMarks(Anchors(sources));
    }
  }

  // ---------------------------------------------------------------------------
  // The renumbering assumption

  /** The loop renumbers each source before reading it, starting at the running
      `max_id` (first 1), and then moves `max_id` past the source's largest
      number. Renumbering itself is not modelled; this states what it guarantees:
      each source's numbers lie in its own range, from the start it was given up
      to its `maxId`, and the next source starts at `maxId + 1`, never below the
      previous start. */
  ghost predicate Renumbered(sources: seq<Source>, start: nat)
    decreases |sources|
  {
    sources == [] ||
      (start <= sources[0].maxId + 1
       && (forall id :: id in sources[0].objects ==> start <= id.num <= sources[0].maxId)
       && Renumbered(sources[1..], sources[0].maxId + 1))
  }

  /** No two sources share an object id. */
  ghost predicate Disjoint(sources: seq<Source>) {
    forall i, j :: 0 <= i < j < |sources| ==> sources[i].objects.Keys !! sources[j].objects.Keys
  }

  lemma {:induction false} RenumberedAbove(sources: seq<Source>, start: nat)
    requires Renumbered(sources, start)
    ensures forall i, id :: 0 <= i < |sources| && id in sources[i].objects ==> start <= id.num
    decreases |sources|
  {
    if sources != [] {
      var tail := sources[1..];
      RenumberedAbove(tail, sources[0].maxId + 1);
      forall i, id | 0 <= i < |sources| && id in sources[i].objects ensures start <= id.num {
        if i > 0 {
          assert sources[i] == tail[i - 1];
        }
      }
    }
  }

  /** Renumbering into consecutive ranges keeps the sources' ids apart. */
  lemma {:induction false} RenumberedDisjoint(sources: seq<Source>, start: nat)
    requires Renumbered(sources, start)
    ensures Disjoint(sources)
    decreases |sources|
  {
    if sources != [] {
      var tail := sources[1..];
      RenumberedAbove(tail, sources[0].maxId + 1);
      RenumberedDisjoint(tail, sources[0].maxId + 1);
      forall i, j | 0 <= i < j < |sources|
        ensures sources[i].objects.Keys !! sources[j].objects.Keys
      {
        assert sources[j] == tail[j - 1];
        if i > 0 {
          assert sources[i] == tail[i - 1];
        } else {
          forall id | id in sources[j].objects ensures id !in sources[0].objects {
            assert id.num >= sources[0].maxId + 1;
          }
        }
      }
    }
  }

  /** With disjoint sources the pool holds every source's objects unchanged. */
  lemma {:induction false} AllObjectsDisjoint(sources: seq<Source>, i: nat, id: ObjectId)
    requires Disjoint(sources)
    requires i < |sources| && id in sources[i].objects
    ensures id in AllObjects(sources) && AllObjects(sources)[id] == sources[i].objects[id]
    decreases |sources|
  {
    var pre := sources[..|sources| - 1];
    var last := sources[|sources| - 1];
    if i < |pre| {
      assert Disjoint(pre) by {
        forall a, b | 0 <= a < b < |pre| ensures pre[a].objects.Keys !! pre[b].objects.Keys {
          assert pre[a] == sources[a] && pre[b] == sources[b];
        }
      }
      assert pre[i] == sources[i];
      AllObjectsDisjoint(pre, i, id);
      assert id !in last.objects;
    }
  }

  /** The found pages, each with the pooled object under its id. */
  ghost function FoundPages(sources: seq<Source>): Store {
    map id | id in AllFound(sources) && id in AllObjects(sources) :: AllObjects(sources)[id]
  }

  /** With disjoint sources the collected pages are exactly the found pages, as
      they stand in the pool. */
  lemma CollectedPagesDisjoint(sources: seq<Source>)
    requires Disjoint(sources)
    requires CollectAll(sources).Success?
    ensures CollectAll(sources).value.pages == FoundPages(sources)
  {
    CollectAllPages(sources);
    var pages := CollectAll(sources).value.pages;
    var all := AllObjects(sources);
    forall id | id in pages ensures id in all && pages[id] == all[id] {
      var i :| 0 <= i < |sources| && id in FoundIds(sources[i], sources[i].requested)
        && id in sources[i].objects && pages[id] == sources[i].objects[id];
      AllObjectsDisjoint(sources, i, id);
    }
    var found := FoundPages(sources);
    assert pages.Keys == found.Keys;
    forall id | id in pages ensures pages[id] == found[id] {
    }
  }

  /** Every page map names Page objects (lopdf's page-tree walk yields the ids of
      `/Type /Page` leaves). */
  ghost predicate PageMapsTyped(sources: seq<Source>) {
    forall i, n :: 0 <= i < |sources| && n in sources[i].pageMap && sources[i].pageMap[n] in sources[i].objects
      ==> KindOf(sources[i].objects[sources[i].pageMap[n]]) == PageKind
  }

  /** When the page maps name Page objects, so do the collected pages. */
  lemma CollectedPagesTyped(sources: seq<Source>)
    requires PageMapsTyped(sources)
    requires CollectAll(sources).Success?
    ensures forall id :: id in CollectAll(sources).value.pages ==> KindOf(CollectAll(sources).value.pages[id]) == PageKind
  {
    CollectAllPages(sources);
    var pages := CollectAll(sources).value.pages;
    forall id | id in pages ensures KindOf(pages[id]) == PageKind {
      var i :| 0 <= i < |sources| && id in FoundIds(sources[i], sources[i].requested)
        && id in sources[i].objects && pages[id] == sources[i].objects[id];
      var n :| n in sources[i].requested && n in sources[i].pageMap && sources[i].pageMap[n] == id;
    }
  }
}
