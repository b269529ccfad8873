# rust-pdf-merger: a Dafny model of `merge_documents`

This project models the object-graph merge at the heart of rust-pdf-merger.
`merge_documents` takes, for each source PDF, the page numbers to keep and
builds one document. The model covers these steps:

- **Page loop.** For every source, each requested page number is looked up in
  the source's page-number → object-id map. The page object is collected, keyed
  by its id. The source's first found page gets a `Page_<n>` bookmark.
- **Pooling.** All objects of all sources are pooled, and a later source's
  object replaces an earlier one at the same id.
- **Classification.** The pooled objects are walked in ascending id order:
  - The first Catalog id is kept, holding the last Catalog seen.
  - Every Pages dictionary is folded into the first Pages id. On a shared key,
    the entry from the smaller id wins.
  - Page, Outlines and Outline objects are dropped.
  - Every other object is copied unchanged.
- **Early exits.** The merge stops early when there is no Pages object, and
  again when there is no Catalog.
- **Re-parenting.** Each collected page dictionary gets `Parent` set to the
  surviving Pages id.
- **Pages root.** It gets `Count` (the number of collected pages, as a `u32`)
  and `Kids` (References to the collected ids, in ascending id order).
- **Catalog and trailer.** The Catalog gets `Pages` and loses `Outlines`. The
  trailer's `Root` names the Catalog. When the last Catalog seen is a stream
  rather than a dictionary, nothing is written at the Catalog id, yet `Root`
  still names it.

An object id is a pair (object number, generation). Ids are ordered
lexicographically, as Rust orders tuples: that is the iteration order of the
`BTreeMap`s the code uses. An object's role comes from the `/Type` name of its
dictionary or stream dictionary; a missing name counts as the empty name. The
sources arrive as an arbitrary sequence, because the code iterates a `HashMap`.

Modules, one per file:

- `Wrappers` (`wrappers.dfy`): `Option` and `Result`.
- `Ids` (`ids.dfy`): object ids, their order, the least and greatest id of a set,
  and the ascending listing of a set.
- `Objects` (`objects.dfy`): values, dictionaries, objects, and the role of an
  object.
- `Titles` (`titles.dfy`): decimal rendering and the `Page_<n>` bookmark title.
- `Collect` (`collect.dfy`):
  - the page loop and the source loop;
  - their reference definitions: found pages, pooled objects, bookmark anchors;
  - the renumbering assumption.
- `Classification` (`classify.dfy`): the classification pass as a fold over the
  ascending ids, with declarative descriptions of its three results.
- `Finalize` (`finalize.dfy`): re-parenting, the rebuilt Pages root and the
  patched Catalog.
- `Merge` (`merge.dfy`): `MergeDocuments` and the properties of everything after
  the source loop.
- `MergeProperties` (`properties.dfy`): the end-to-end properties, stated over
  the sources.

The code keeps `Kids` in ascending-id order with duplicates collapsed, because
the collected pages live in a `BTreeMap` keyed by object id: `Kids` does not
follow the request order, and a page requested twice appears once.

## Model

| member | source | states |
|---|---|---|
| Ids.MinId | src/services/pdf.rs:57-62 | the "first" id kept for a role is a member of the set and no greater than any other member |
| Ids.MaxId | src/services/pdf.rs:57-64 | the id of the last object met in ascending order is a member and no smaller than any other member |
| Ids.SortedIds | src/services/pdf.rs:51 | the `BTreeMap` walk visits exactly the ids of the map, each once, in strictly increasing order |
| Titles.Decimal | src/services/pdf.rs:27 | `{}` renders a number as a nonempty digit string with no leading zero |
| Titles.DecimalRoundTrip | src/services/pdf.rs:27 | reading the rendered digits back gives the number |
| Titles.PageTitleInjective | src/services/pdf.rs:27 | distinct counters give distinct `Page_<n>` titles |
| Collect.Visit | src/services/pdf.rs:22-40 | one requested number: skipped when the page map lacks it, otherwise anchoring the source's bookmark when it is the first found and fetching the page or failing; characterised over whole loops by `Collect.VisitAllFailure`, `Collect.VisitAllPages` and `Collect.VisitAllMarks` |
| Collect.VisitAll | src/services/pdf.rs:22-42 | one source's page loop in request order; `Collect.VisitAllFailure`, `Collect.VisitAllPages` and `Collect.VisitAllMarks` state when it fails, which pages it adds and which bookmark |
| Collect.CollectSource | src/services/pdf.rs:11-43 | one source: its page loop with `first` set, then its objects joining the pool; characterised through `Collect.CollectAllPages` and `Collect.CollectAllMarks` |
| Collect.CollectAll | src/services/pdf.rs:11-44 | the source loop with the bookmark counter starting at 1; `Collect.CollectAllFailure`, `Collect.CollectAllPages` and `Collect.CollectAllMarks` state its failure, pages, pool and bookmarks |
| Collect.FirstFoundIsEarliest | src/services/pdf.rs:22-25 | a source's anchor is absent exactly when no requested number is in the page map, and otherwise is the page of the earliest such number |
| Collect.FoundIdsFetched | src/services/pdf.rs:37-40 | when no lookup fails, every found id has its object |
| Collect.VisitAllFailure | src/services/pdf.rs:22-40 | one source's page loop fails exactly when some requested number is in the page map but its id has no object; unknown numbers are skipped |
| Collect.VisitAllPages | src/services/pdf.rs:37-40 | a successful page loop adds exactly the found pages, keyed by id (a repeated request collapses), to what was collected before |
| Collect.VisitAllMarks | src/services/pdf.rs:13-35 | a page loop adds one bookmark, `Page_<counter>`, anchored at the earliest found page, and bumps the counter once, when a page is found; otherwise it adds nothing |
| Collect.CollectAllFailure | src/services/pdf.rs:11-43 | the source loop fails exactly when some source has a found page id without an object |
| Collect.CollectAllPages | src/services/pdf.rs:37-43 | after the source loop the collected page ids are the found ids of all sources, each page came from a source that found it, and the pool is all sources' objects with later sources winning |
| Collect.CollectAllMarks | src/services/pdf.rs:7-35 | the bookmarks are one per source that found a page, in source order, titled `Page_1`, `Page_2`, ... and anchored at that source's first found page; the counter ends one past the last title |
| Collect.RenumberedAbove | src/services/pdf.rs:6-16 | under the renumbering assumption every id of the later sources lies above the given start |
| Collect.RenumberedDisjoint | src/services/pdf.rs:6-16 | renumbering each source from one past the previous source's largest number makes the sources' id sets pairwise disjoint |
| Collect.AllObjectsDisjoint | src/services/pdf.rs:43 | with disjoint sources the pool holds every source's object unchanged |
| Collect.CollectedPagesDisjoint | src/services/pdf.rs:37-43 | with disjoint sources the collected pages are exactly the found ids' objects as they stand in the pool |
| Collect.CollectedPagesTyped | src/services/pdf.rs:18-40 | when the page maps name Page objects, every collected page is a Page |
| Objects.KindKeepsOnSet | src/services/pdf.rs:106 | setting a key other than `Type` keeps an object's role |
| Objects.KindKeepsOnRemove | src/services/pdf.rs:140 | removing a key other than `Type` keeps an object's role |
| Classification.Step | src/services/pdf.rs:54-93 | the dispatch on one object's `/Type`; the fold of it is characterised by `Classification.ClassifyStore`, `Classification.ClassifyCatalog` and `Classification.ClassifyPages`, with `Classification.PagesStep` for one Pages step |
| Classification.ClassifyIds | src/services/pdf.rs:51-94 | the pass over an ascending id list; `Classification.ClassifyStore`, `Classification.ClassifyCatalog` and `Classification.ClassifyPages` state its three results against declarative definitions |
| Classification.PagesStep | src/services/pdf.rs:66-85 | one Pages dictionary folded into the candidate keeps it the smallest Pages id holding the first-wins union |
| Classification.ClassifyStore | src/services/pdf.rs:87-92 | the classification fold copies exactly the objects of no structural role, unchanged |
| Classification.ClassifyCatalog | src/services/pdf.rs:55-64 | the fold keeps no Catalog when there is none, and otherwise the smallest Catalog id holding the Catalog of the largest id |
| Classification.ClassifyPages | src/services/pdf.rs:66-85 | the fold keeps no Pages root when there is no Pages dictionary, and otherwise the smallest such id with the first-wins union of all of them |
| Classification.Classify | src/services/pdf.rs:47-94 | the pass over the ascending pooled ids: copied objects, Catalog and Pages root as above, with Pages-typed streams ignored |
| Classification.ClassifyUnion | src/services/pdf.rs:69-75 | a key is in the folded Pages dictionary exactly when some Pages dictionary holds it, with the value from the smallest such id |
| Finalize.ReparentIds | src/services/pdf.rs:103-109 | the re-parenting loop in ascending id order; `Finalize.ReparentIdsSpec` equates it with the order-free overlay `Reparented` |
| Finalize.ReparentIdsSpec | src/services/pdf.rs:103-109 | the re-parenting loop over ids writes, over the store, every page dictionary with `Parent` set, and skips non-dictionaries |
| Finalize.Reparent | src/services/pdf.rs:103-109 | re-parenting the collected pages yields the store overlaid with each page dictionary carrying `Parent` |
| Finalize.WithParentKeeps | src/services/pdf.rs:104-107 | re-parenting sets `Parent` to the root and leaves every other key unchanged |
| Finalize.KidsOf | src/services/pdf.rs:126-132 | `Kids` has one Reference per collected page, each to a collected id, every collected id referenced, in strictly ascending order |
| Finalize.PagesRootDict | src/services/pdf.rs:123-134 | the rebuilt Pages root has `Count` equal to the page count modulo 2^32 (so equal to the length of `Kids` below 2^32), `Kids` as above, and every other key unchanged |
| Finalize.CatalogDict | src/services/pdf.rs:137-142 | the patched Catalog has `Pages` naming the Pages root, no `Outlines`, and every other key unchanged |
| Merge.WriteRoots | src/services/pdf.rs:133-141 | the final writes add the Pages root, then the Catalog when it is a dictionary, and leave every other id as it was |
| Merge.MergeDocuments | src/services/pdf.rs:5-144 | the merge fails exactly when some source has a found page id without an object; on success it carries one numbered bookmark per source that found a page |
| Merge.Assemble | src/services/pdf.rs:96-144 | everything after the source loop; characterised by the `Merge.Assemble…` lemmas below |
| Merge.AssembleStatus | src/services/pdf.rs:96-144 | the merge leaves early without Pages, then without a Catalog; `Root` is set, to the smallest Catalog id, only when both exist |
| Merge.AssembleNoPagesRoot | src/services/pdf.rs:96-101 | without a Pages dictionary the result is exactly the copied objects, none of which has a structural role |
| Merge.AssembleNoCatalog | src/services/pdf.rs:103-116 | with Pages but no Catalog the result is the copied objects overlaid with the re-parented pages |
| Merge.AssembleKeys | src/services/pdf.rs:87-142 | a complete merge holds exactly the copied ids, the re-parented page ids, the Pages root and, when it is a dictionary, the Catalog |
| Merge.AssemblePagesRoot | src/services/pdf.rs:123-134 | the smallest Pages id holds the rebuilt root over the first-wins union of all Pages dictionaries |
| Merge.AssembleCatalog | src/services/pdf.rs:137-142 | when the last Catalog is a dictionary, the smallest Catalog id holds it patched |
| Merge.AssembleLayersAt | src/services/pdf.rs:91-141 | at an id other than the two roots, the result shows the copied objects overlaid with the re-parented pages |
| Merge.AssemblePages | src/services/pdf.rs:103-109 | every re-parented page whose id is neither root's is in the result |
| Merge.AssembleOthers | src/services/pdf.rs:90-92 | every copied object not shadowed by a page is in the result unchanged |
| Merge.AssembleTypedPages | src/services/pdf.rs:103-116 | when the collected pages are Page objects as they stand in the pool, every re-parented page is in the result, whether or not a Catalog exists |
| Merge.PagesTypeEntry | src/services/pdf.rs:54-66 | a Pages-typed dictionary carries `/Type /Pages` |
| Merge.MergedRootIsPages | src/services/pdf.rs:123-133 | the rebuilt Pages root inherits `/Type /Pages` from the union |
| Merge.PatchedIsCatalog | src/services/pdf.rs:137-141 | the patched Catalog is still a Catalog |
| Merge.AssembleRootKinds | src/services/pdf.rs:123-142 | the surviving Pages id holds a Pages object, and the Catalog id a Catalog when it is written |
| Merge.AssembleKindAt | src/services/pdf.rs:87-109 | when every collected page is a Page object, any id other than the two roots holds a Page or an object of no structural role |
| Merge.AssembleRoleAt | src/services/pdf.rs:54-142 | when every collected page is a Page object, an id holds a Pages object only if it is the surviving Pages id, a Catalog only if it is the first Catalog id, and never an outline object |
| MergeProperties.MergeUnfold | src/services/pdf.rs:5-44 | a successful merge is the passes after the source loop, run on the pooled objects and the found pages |
| MergeProperties.MergeKids | src/services/pdf.rs:123-133 | in a complete merge `Kids` references every found page once, in ascending id order, and `Count` is their number as a u32, equal to the length of `Kids` below 2^32 |
| MergeProperties.MergeParents | src/services/pdf.rs:103-109 | under the renumbering assumption and typed page maps, every found page dictionary is stored under its id with `Parent` naming the surviving Pages id |
| MergeProperties.MergeCatalog | src/services/pdf.rs:55-144 | in a complete merge `Root` is the smallest Catalog id, which holds the last Catalog seen with `Pages` patched and `Outlines` removed when that Catalog is a dictionary |
| MergeProperties.MergeNoPagesRoot | src/services/pdf.rs:96-101 | without a Pages dictionary the result is only the copied objects, with no `Root` |
| MergeProperties.MergeNoCatalog | src/services/pdf.rs:103-116 | with Pages but no Catalog the result is the copied objects and the re-parented found pages, with no `Root` |
| MergeProperties.MergeRoles | src/services/pdf.rs:54-142 | with page maps that name Page objects, a complete merge holds exactly one Pages object, at most one Catalog (the one `Root` names) and no outline object |
| MergeProperties.MergeKeepsOthers | src/services/pdf.rs:90-92 | under the renumbering assumption and typed page maps, every object of no structural role is carried over unchanged, however the merge ends |
| MergeProperties.MergeKeys | src/services/pdf.rs:87-142 | the ids of a complete merge are the copied ids, the found page dictionaries, the Pages root, and the Catalog when it is a dictionary; nothing else |
| MergeProperties.MergePagesUnion | src/services/pdf.rs:66-134 | the Pages root holds the union of every Pages dictionary of the sources, the smallest id winning on a shared key |

## Left out

- Loading and saving documents, and the command-line driver with its path map,
  are file I/O. A source is given as its objects, its page map and its requested
  numbers.
- The renumbering of each source before its pages are read, and the page listing
  of a source, are lopdf internals. Both are inputs. `Collect.Renumbered` states
  the property the code relies on: each source's ids lie between the running
  start and that source's largest number, and the next source starts one above.
- The `max_id` bookkeeping beyond that assumption (lines 16 and 147) is left out.
- The code then hands the document to lopdf for a `max_id` update, a final
  renumbering, a zero-page adjustment, outline building and compression (lines
  147-154 and 163). Those are lopdf internals. The model's result is the document
  just before line 147.
- Lines 156-161 are the program's own code, and the model stops before them too.
  When lopdf builds an outline, these lines write `Outlines` into the object at
  the Catalog id chosen before the renumbering at line 150. That renumbering can
  move the Catalog to another id, so the write may land on a different object.
  Modelling this would need lopdf's renumbering, which is not part of this model.
- Finalize.CatalogDict states that `Outlines` is absent in the document before
  line 147. After lines 156-161 the Catalog can carry `Outlines` again.
- MergeProperties.MergeCatalog holds, like Finalize.CatalogDict, of the document
  before line 147, for the same reason.
- `get_object` at line 39 is modelled as a plain lookup in the source's objects.
  lopdf's `get_object` also follows a stored object that is itself a Reference.
  Where the stored object is such a Reference, the source collects the object it
  reaches, while the model collects the Reference. The model then skips it when
  re-parenting and copies it as an object of no structural role.
- Bookmark storage inside the document is lopdf-internal, so bookmarks are
  returned as a list. Their colour is a floating-point constant and is not
  carried.
- Diagnostic printing is left out.
- Stream payloads are opaque bytes, and content-stream semantics are not
  modelled.
- `Dictionary::extend` is modelled as the accumulated dictionary, which came
  from the smaller ids, overwriting the entries of the dictionary just visited.
  The smaller id therefore wins on a shared key. Some lopdf versions combine
  colliding values instead: nested dictionaries merged, arrays concatenated, and
  numbers, strings or references gathered into an array. That combining is not
  modelled.
- The order in which the `HashMap` yields sources is not modelled: every lemma
  holds for any order of the sources.
- MergeProperties.MergeParents assumes the renumbering property (without it a page id could coincide with another source's object) and page maps that name Page objects as they are stored. The page listing guarantees only that the object reached by following references is a Page, so the model takes the stronger fact as a hypothesis.
- MergeProperties.MergeKeepsOthers assumes the renumbering property and page maps that name Page objects, for the same reasons.
- MergeProperties.MergeNoCatalog assumes the renumbering property, so that the collected pages are the found pages as they stand in the pool.
- MergeProperties.MergeKeys assumes the renumbering property, for the same reason.
- MergeProperties.MergeRoles assumes page maps that name Page objects: a page map naming a Pages dictionary other than the first would be re-parented and left Pages-typed, giving a second Pages object.
- Merge.AssembleKindAt assumes every collected page is a Page object, for the same reason.
- Merge.AssembleRoleAt assumes every collected page is a Page object, for the same reason.
