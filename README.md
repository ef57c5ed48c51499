# nuxt-content-toc: a Dafny model of the TOC normalisers and the active-heading tracker

This project models the two pieces of logic in the Nuxt module `nuxt-content-toc`
that do more than framework wiring:

1. **Turning raw `@nuxt/content` link trees into the `TocItem` tree.** The content
   module stores heading links in two shapes. Version 2 gives every link an explicit
   `depth`; version 3 gives a `depth`, or a `level`, or nothing, in which case the
   depth comes from nesting. `normalizeV2Toc` and `normalizeV3Toc` filter both by the
   configured heading `levels`. `flattenHeadingIds` lists the ids in pre-order, and
   `fetchToc` chooses which link array to read and which normaliser to apply. It also
   drives the `toc` / `pending` / `error` refs.
2. **The active-heading tracker of `useActiveHeading`.** It resolves its options
   (offset and root margin). It keeps an insertion-ordered map of the visible headings,
   updated from each batch of intersection entries. It picks the topmost visible
   heading as active and keeps the last one when nothing is visible. It sets up and
   tears down its observer.

Modules, one per component:

- `Wrappers`: `Option`, with `??` (`GetOr`) and `||` on fields (`OrElse`).
- `TocTypes`: `TocItem` and the tree predicates (`AllDepthsIn`, `Canonical`, `NodeCount`).
- `Normalize`: the raw `ContentLink` / `Links` shapes and both normalisers, with their
  properties.
- `Flatten`: pre-order (`PreOrder`) and the loop of `flattenHeadingIds`.
- `TocSource`: document fields, link selection and dispatch, and the `TocState` class
  that holds the three refs.
- `VisibleMap`: the JavaScript `Map` as a sequence of `(id, top)` pairs with distinct
  ids, and the batch update.
- `ActiveHeading`: option defaulting, the stable sort and pick, and the
  `ActiveHeadingTracker` class.

How JavaScript values are encoded:

- A field read with `??` (`depth`, `level`, `offsetTop`, `scrollOffset`, `rootMargin`)
  is `None` when it is `undefined` or `null`.
- A `links` or `children` slot (and the configured `levels`) is tested for
  truthiness (`useContentToc.ts:97`, `:123`, `:185`, `:208`, `:235`, `:238`, `:245`).
  So `None` stands for every falsy value there: `undefined`, `null`, `0`, `""`, `false`.
  A truthy value is `Arr(...)` when `Array.isArray` accepts it, else `NotArray`. An
  array is truthy even when empty, so `Some(Arr([]))` stops a `||` fallback.
- `x || null` on an id turns `""` into null (`OrNull`). So the active id is never the
  empty string, and `!activeId.value` is the same as "no active id".

Four behaviours of the code are easy to misread, and the model keeps them as the code has them:

- In the version-2 normaliser, a link whose depth is not allowed loses its whole
  subtree. The code filters before it maps (`useContentToc.ts:91-98`), so its children
  are never normalised.
- In the version-3 normaliser, children are normalised at `currentDepth + 1`, not at
  the resolved depth plus one (`useContentToc.ts:123`).
- Ties between equally high visible headings go to the heading inserted into the map
  first, not to the heading that comes first in `headingIds`. The stable sort runs over
  the map's insertion order (`useActiveHeading.ts:67-74`).
- Nothing in `fetchToc` discards a late response for an older path. So there is no
  "latest locator wins" rule to model.

Inputs that come from outside are parameters:

- which content API answered, and the document it returned (`FetchOutcome`);
- which heading ids have an element in the page (`SetupObserver`'s `present`);
- each batch of intersection entries (`OnBatch`'s `entries`).

## Model

| member | source | states |
|---|---|---|
| `Normalize.NormalizeV2List` | src/runtime/composables/useContentToc.ts:88-99 | every node of the v2 result, at every level, has a depth in `levels`; there are no more roots than input links |
| `Normalize.NormalizeV2` | src/runtime/composables/useContentToc.ts:88-89 | a `links` value that is not an array gives `[]`; all depths of the result are allowed |
| `Normalize.NormalizeV2Concat` | src/runtime/composables/useContentToc.ts:91-98 | the v2 normaliser works link by link: normalising `a + b` gives the result for `a` followed by the result for `b`, so input order is kept |
| `Normalize.NormalizeV2One` | src/runtime/composables/useContentToc.ts:92-97 | a link is kept iff `depth ?? 0` is in `levels`; a kept link keeps its id and text, gets depth `depth ?? 0`, and has `children` iff the input had them (`[]` for a non-array, the normalised array otherwise) |
| `Normalize.NormalizeV2DropsSubtree` | src/runtime/composables/useContentToc.ts:91-92 | a rejected link and its whole subtree vanish: the result equals that of the input without the link |
| `Normalize.NormalizeV2Fixpoint` | src/runtime/composables/useContentToc.ts:88-98 | a tree whose depths are all allowed, read back as links, passes through the v2 normaliser unchanged |
| `Normalize.NormalizeV2Idempotent` | src/runtime/composables/useContentToc.ts:88-98 | normalising the v2 output again with the same levels returns the same tree |
| `Normalize.DepthOr0` | src/runtime/composables/useContentToc.ts:92-95 | the v2 depth is the link's `depth`, or 0 when it is missing |
| `Normalize.ResolvedDepth` | src/runtime/composables/useContentToc.ts:117 | the v3 depth is `depth`, else `level`, else the current nesting depth |
| `Normalize.NormalizeV3List` | src/runtime/composables/useContentToc.ts:110-134 | every node of the v3 result has an allowed depth, no node has an empty `children` list, and there are no more roots than input links |
| `Normalize.NormalizeV3` | src/runtime/composables/useContentToc.ts:110-113 | a non-array gives `[]`; the result is canonical and all its depths are allowed |
| `Normalize.NormalizeV3Concat` | src/runtime/composables/useContentToc.ts:115-133 | the v3 normaliser works link by link at a fixed nesting depth, keeping input order |
| `Normalize.NormalizeV3One` | src/runtime/composables/useContentToc.ts:117-130 | a link is kept iff `depth ?? level ?? currentDepth` is allowed; its children are normalised at `currentDepth + 1`, whatever depth it resolved to, and `children` is present iff that list is non-empty |
| `Normalize.NormalizeV3DropsSubtree` | src/runtime/composables/useContentToc.ts:119-121 | a rejected v3 link vanishes together with its subtree |
| `Normalize.NormalizeV3Fixpoint` | src/runtime/composables/useContentToc.ts:115-133 | a canonical tree with allowed depths passes through the v3 normaliser unchanged, at any starting depth |
| `Normalize.NormalizeV3Idempotent` | src/runtime/composables/useContentToc.ts:123-130 | re-normalising the v3 output with the same levels returns the same tree |
| `Normalize.AsLinks` | src/runtime/types.ts:37-62 | a `TocItem` tree read as raw links: one link per item with the same id and text, an explicit depth, no level, and children present iff the item had them, as an array of the children read the same way |
| `Normalize.EmptyChildrenDiverge` | src/runtime/composables/useContentToc.ts:93-129 | when all children are rejected, v2 keeps `children: []` and v3 leaves the field out |
| `Normalize.LevelOnlyDiverges` | src/runtime/composables/useContentToc.ts:92-117 | a link with only a `level`, or no depth at all, is dropped by v2 (depth 0) but kept by v3 at its level or its nesting depth |
| `Normalize.FilteringExample` | src/runtime/composables/useContentToc.ts:88-133 | with levels {2, 3}, a depth-4 child is dropped with its depth-3 grandchild and its depth-3 sibling survives, under both normalisers |
| `Flatten.PreOrder` | src/runtime/composables/useContentToc.ts:143-154 | the pre-order id list has one entry per node of the tree, and starts with the first root's id |
| `Flatten.PreOrderConcat` | src/runtime/composables/useContentToc.ts:146-151 | flattening a concatenation of forests concatenates their id lists (siblings left to right) |
| `Flatten.PreOrderListsEveryNode` | src/runtime/composables/useContentToc.ts:143-154 | an id is listed iff some node at some depth carries it |
| `Flatten.PreOrderStep` | src/runtime/composables/useContentToc.ts:146-151 | one more sibling adds its id, then its descendants' ids |
| `Flatten.FlattenHeadingIds` | src/runtime/composables/useContentToc.ts:143-154 | the loop that pushes each id and then its children's flattened ids returns exactly the pre-order list |
| `Flatten.PreOrderExample` | src/runtime/composables/useContentToc.ts:143-154 | `[x [y], z]` flattens to `[x, y, z]`, not breadth-first |
| `TocSource.EffectiveLevels` | src/runtime/composables/useContentToc.ts:185 | configured levels are used as given, even empty ones; otherwise `[2, 3, 4]` |
| `TocSource.InlineToc` | src/runtime/composables/useContentToc.ts:206-217 | an inline object's TOC is canonical with allowed depths, and `[]` when neither link field is present |
| `TocSource.FetchedToc` | src/runtime/composables/useContentToc.ts:229-249 | no provider or no data gives `[]`; v2 with no `body.toc.links` gives `[]` whatever `toc.links` holds; no link field at all gives `[]`; v3 results are canonical; all depths are allowed |
| `TocSource.InlineIsV3Fetch` | src/runtime/composables/useContentToc.ts:206-249 | an inline object gives exactly what a fetched version-3 document with the same fields gives |
| `TocSource.V2IgnoresTopLevelToc` | src/runtime/composables/useContentToc.ts:242-248 | the v2 branch never reads the top-level `toc.links` |
| `TocSource.InlineReadsBodyFirst` | src/runtime/composables/useContentToc.ts:208-211 | for every inline object with `body.toc.links` present, the TOC is the v3 normalisation of those links and does not depend on the top-level `toc` |
| `TocSource.InlineFallsBackToTopLevel` | src/runtime/composables/useContentToc.ts:208-215 | for every inline object without `body.toc.links`, the TOC is the v3 normalisation of `toc.links`, or `[]` when that is missing too |
| `TocSource.V3ReadsBodyThenTopLevel` | src/runtime/composables/useContentToc.ts:233-241 | for every fetched v3 document: `body.toc.links` when present (the top-level `toc` then does not matter), else `toc.links`, else `[]`, always with the v3 normaliser |
| `TocSource.V2ReadsBodyOnly` | src/runtime/composables/useContentToc.ts:242-249 | for every fetched v2 document the TOC is the v2 normalisation of `body.toc.links`, or `[]` when it is missing |
| `TocSource.BodyLinksShadowTopLevel` | src/runtime/composables/useContentToc.ts:206-240 | worked example: an empty `body.toc.links` array still wins over a non-empty `toc.links`, inline and in the v3 branch; without a body the top-level links are used |
| `TocSource.BodyLinks` | src/runtime/composables/useContentToc.ts:208 | `content.body?.toc?.links` is present iff the body, its `toc` and its `links` all are, and is then that value |
| `TocSource.TopLinks` | src/runtime/composables/useContentToc.ts:208 | `content.toc?.links` is present iff `toc` and its `links` are, and is then that value |
| `TocSource.CaughtMessage` | src/runtime/composables/useContentToc.ts:266 | a thrown `Error` keeps its message; any other thrown value becomes "Failed to fetch TOC" |
| `TocSource.TocState.constructor` | src/runtime/composables/useContentToc.ts:185-190 | the refs start as `[]`, pending, no error; levels are the effective levels |
| `TocSource.TocState.Begin` | src/runtime/composables/useContentToc.ts:199-200 | a run starts pending with the error cleared and the old TOC still in place |
| `TocSource.TocState.FetchToc` | src/runtime/composables/useContentToc.ts:198-272 | after a run `pending` is false; an inline object or a loaded document gives its normalised TOC and no error; a handler failure or a thrown value sets the error (non-`Error` values become "Failed to fetch TOC") and clears the TOC |
| `VisibleMap.Keys` | src/runtime/composables/useActiveHeading.ts:67 | the map's keys in iteration order, one per pair |
| `VisibleMap.Lookup` | src/runtime/composables/useActiveHeading.ts:54 | `get` finds a value iff the key is present, and the pair is in the map |
| `VisibleMap.Set` | src/runtime/composables/useActiveHeading.ts:109 | after `set(k, v)`, `k` maps to `v` |
| `VisibleMap.SetOthers` | src/runtime/composables/useActiveHeading.ts:109 | `set` changes no other key |
| `VisibleMap.SetKeys` | src/runtime/composables/useActiveHeading.ts:109 | `set` keeps an existing key where it stands and appends a new key |
| `VisibleMap.SetUnique` | src/runtime/composables/useActiveHeading.ts:109 | `set` keeps keys unique |
| `VisibleMap.Delete` | src/runtime/composables/useActiveHeading.ts:112 | after `delete(k)`, `k` is absent; deleting an absent key changes nothing |
| `VisibleMap.DeleteOthers` | src/runtime/composables/useActiveHeading.ts:112 | `delete` changes no other key |
| `VisibleMap.DeleteUnique` | src/runtime/composables/useActiveHeading.ts:112 | `delete` keeps keys unique and adds no pair |
| `VisibleMap.IndexOf` | src/runtime/composables/useActiveHeading.ts:54 | the first position holding a present key |
| `VisibleMap.TailUnique` | src/runtime/composables/useActiveHeading.ts:54 | the tail of a map with unique keys has unique keys, none equal to the head's |
| `VisibleMap.DeleteRemovesOne` | src/runtime/composables/useActiveHeading.ts:112 | deleting a present key removes exactly its pair and keeps the others' order |
| `VisibleMap.ApplyEntry` | src/runtime/composables/useActiveHeading.ts:107-113 | after one entry its id maps to its top if it intersects and is absent otherwise |
| `VisibleMap.ApplyBatch` | src/runtime/composables/useActiveHeading.ts:105-114 | an empty batch changes nothing; after a batch the id of its last entry is decided by that entry |
| `VisibleMap.ApplyBatchUnique` | src/runtime/composables/useActiveHeading.ts:105-114 | a batch keeps the keys unique |
| `VisibleMap.LastFor` | src/runtime/composables/useActiveHeading.ts:105-114 | the last entry of a batch for an id is an entry of the batch for that id; none means no entry reports it |
| `VisibleMap.LastEntryWins` | src/runtime/composables/useActiveHeading.ts:105-114 | after a batch, an id is present with its top iff its last entry intersects, absent iff its last entry does not, and unchanged if no entry reports it |
| `VisibleMap.ResetKeepsOrder` | src/runtime/composables/useActiveHeading.ts:105-114 | re-reporting present ids as intersecting never reorders the map |
| `ActiveHeading.EffectiveOffset` | src/runtime/composables/useActiveHeading.ts:44 | the offset is `options.offsetTop`, else the configured `scrollOffset`, else 80 |
| `ActiveHeading.DigitChar` | src/runtime/composables/useActiveHeading.ts:45 | a digit's character has that digit's value |
| `ActiveHeading.NatToString` | src/runtime/composables/useActiveHeading.ts:45 | a number prints as a non-empty string of decimal digits without a leading zero |
| `ActiveHeading.DecimalRoundTrip` | src/runtime/composables/useActiveHeading.ts:45 | a printed number reads back as the same number |
| `ActiveHeading.IntToString` | src/runtime/composables/useActiveHeading.ts:45 | `${n}` for an integer: its decimal digits, preceded by `-` when negative |
| `ActiveHeading.DefaultRootMargin` | src/runtime/composables/useActiveHeading.ts:45 | the default margin starts with `-` and ends with `px 0px -80% 0px` |
| `ActiveHeading.EffectiveRootMargin` | src/runtime/composables/useActiveHeading.ts:45 | the root margin is `options.rootMargin`, else the default built from the offset |
| `ActiveHeading.DefaultRootMarginEncodesOffset` | src/runtime/composables/useActiveHeading.ts:45 | the default margin is `-`, the offset's digits (which read back as the offset), then `px 0px -80% 0px` |
| `ActiveHeading.OrNull` | src/runtime/composables/useActiveHeading.ts:78 | `id \|\| null` never yields the empty string and keeps a non-empty id |
| `ActiveHeading.InsertByTop` | src/runtime/composables/useActiveHeading.ts:68-72 | insertion adds exactly one entry (as a multiset) and puts `x` first iff it is not below the current head |
| `ActiveHeading.InsertKeepsSorted` | src/runtime/composables/useActiveHeading.ts:68-72 | insertion keeps a sequence sorted by top |
| `ActiveHeading.SortByTop` | src/runtime/composables/useActiveHeading.ts:67-73 | the sort returns a permutation of the visible entries |
| `ActiveHeading.SortByTopSorted` | src/runtime/composables/useActiveHeading.ts:67-73 | the sort's result is ordered by top |
| `ActiveHeading.FirstTopmost` | src/runtime/composables/useActiveHeading.ts:67-78 | the index of an entry whose top is minimal and which comes before every other entry with that top |
| `ActiveHeading.SortHeadIsFirstTopmost` | src/runtime/composables/useActiveHeading.ts:67-78 | the head of the stable sort is the first entry, in insertion order, with the smallest top |
| `ActiveHeading.UpdateActiveHeading` | src/runtime/composables/useActiveHeading.ts:61-80 | with no visible heading the active id is unchanged (sticky); the result is never the empty string |
| `ActiveHeading.ActiveIsFirstTopmost` | src/runtime/composables/useActiveHeading.ts:61-80 | with visible headings, the active id is the one with the smallest top, ties going to the earliest inserted |
| `ActiveHeading.TieBreakExample` | src/runtime/composables/useActiveHeading.ts:67-78 | equal tops resolve by map insertion order; a smaller top wins over an earlier entry |
| `ActiveHeading.ActiveHeadingTracker.constructor` | src/runtime/composables/useActiveHeading.ts:44-54 | options are resolved, no heading is active, the map is empty and there is no observer |
| `ActiveHeading.ActiveHeadingTracker.SetupObserver` | src/runtime/composables/useActiveHeading.ts:86-135 | an existing observer is disconnected and the map cleared; an empty id list makes the active id none; otherwise exactly the present ids are observed, and the first id becomes active only if none was, so an existing active id is kept even when not in the new list |
| `ActiveHeading.ActiveHeadingTracker.OnBatch` | src/runtime/composables/useActiveHeading.ts:104-117 | the map becomes the batch applied entry by entry, then the active id is recomputed from the new map |
| `ActiveHeading.TrackerScenario` | src/runtime/composables/useActiveHeading.ts:44-151 | worked example: with ids `h1`, `h2` the first is active before any batch; `h2` becomes active when it intersects, stays active when nothing is visible, and survives two teardowns |
| `ActiveHeading.ActiveHeadingTracker.Unmount` | src/runtime/composables/useActiveHeading.ts:145-151 | the observer is released and the map emptied, the active id is kept, and a second teardown changes nothing |

## Left out

- `fetchContent` (`useContentToc.ts:42-78`) and `useContentVersion.ts`: they detect the content API through ambient globals and run the query. The provider kind and the returned document are inputs (`FetchOutcome`).
- `useAsyncData` and the framework around it: caching and deduplication under the `toc-${path}` key, the watchers on the route and the input, the `refresh` reassignment, and the choice of the path (given path or `route.path`). They are framework reactivity; `fetchToc` is modelled as one run that receives its I/O result.
- The `IntersectionObserver` geometry and thresholds, `document.getElementById`, `nextTick`, the `onMounted` and `watch` wiring, and the server-side guard. Which ids have elements and each batch of entries are inputs.
- Floating point: depths, tops and offsets are integers. `levels.includes` is plain membership (no NaN). `${offsetTop}` is modelled as plain decimal digits, which is what JavaScript prints only for integers below 10^21 in magnitude; larger ones print in exponent form (`1e+21`), and fractions print with a decimal point.
- Link arrays are assumed to hold objects. In the source, a `null` (or other non-object) element of a `links` or `children` array makes `link.depth` / `item.depth` throw (`useContentToc.ts:92`, `:117`). In the inline branch the `catch` then sets `error` and clears `toc` (`:264-268`); in the path branch the failure lands in `useAsyncData`'s error ref, which the `AsyncFailed` outcome covers. `ContentLink` cannot hold such an element, so `InlineToc` never fails.
- The `Error` object: the `error` ref holds the error's message as a string.
- `src/module.ts`, `src/runtime/plugin.ts` and the styling options of `src/runtime/types.ts`: configuration and build glue.
- SortByTop: stability is stated only through its consequence for the first element (`SortHeadIsFirstTopmost`), which is the only element the source reads. There is no general order-of-ties lemma.
- ActiveHeadingTracker.OnBatch: requires a connected observer, because only a live observer delivers batches. Batches that a disconnected observer had already queued are not modelled.
