/** The two normalisers of src/runtime/composables/useContentToc.ts, which turn
    the raw link trees of the two content-module versions into `TocItem` trees. */
module Normalize {
  import opened Wrappers
  import opened TocTypes

  /** What sits in a `links` or `children` slot that is present (truthy): an
      array of raw links, or some other value that `Array.isArray` rejects. */
  datatype Links = Arr(items: seq<ContentLink>) | NotArray

  /** A raw heading link as the content module stores it. */
  datatype ContentLink = ContentLink(
    id: string,
    depth: Option<int>,
    level: Option<int>,
    text: string,
    children: Option<Links>)

  /** The depth at which the root links of a v3 tree are read. */
  const RootDepth: int := 2

  // ---------------------------------------------------------------------
  // Version 2: `depth ?? 0`, filter, then map.
  // ---------------------------------------------------------------------

  /** The depth the v2 normaliser filters on and stores: `link.depth ?? 0`. */
  function DepthOr0(l: ContentLink): (r: int)
    ensures l.depth.Some? ==> r == l.depth.value
    ensures l.depth.None? ==> r == 0
  {
    l.depth.GetOr(0)
  }

  /** `normalizeV2Toc` applied to an array of links. */
  function NormalizeV2List(ls: seq<ContentLink>, levels: seq<int>): (r: seq<TocItem>)
    ensures AllDepthsIn(r, levels)
    ensures |r| <= |ls|
    decreases ls
  {
    if ls == [] then []
    else
      var l := ls[0];
      var rest := NormalizeV2List(ls[1..], levels);
      if DepthOr0(l) in levels then
        var kids := match l.children
          case None => Absent
          case Some(NotArray) => Present([])
          case Some(Arr(cs)) => Present(NormalizeV2List(cs, levels));
        [TocItem(l.id, DepthOr0(l), l.text, kids)] + rest
      else
        rest
  }

  /** `normalizeV2Toc(links, levels)`: a value that is not an array gives []. */
  function NormalizeV2(links: Links, levels: seq<int>): (r: seq<TocItem>)
    ensures links.NotArray? ==> r == []
    ensures AllDepthsIn(r, levels)
  {
    match links
    case NotArray => []
    case Arr(ls) => NormalizeV2List(ls, levels)
  }

  // ---------------------------------------------------------------------
  // Version 3: `depth ?? level ?? currentDepth`, map to null, filter.
  // ---------------------------------------------------------------------

  /** The depth the v3 normaliser filters on and stores. */
  function ResolvedDepth(l: ContentLink, currentDepth: int): (r: int)
    ensures l.depth.Some? ==> r == l.depth.value
    ensures l.depth.None? && l.level.Some? ==> r == l.level.value
    ensures l.depth.None? && l.level.None? ==> r == currentDepth
  {
    l.depth.GetOr(l.level.GetOr(currentDepth))
  }

  /** `normalizeV3Toc` applied to an array of links at nesting depth `currentDepth`. */
  function NormalizeV3List(ls: seq<ContentLink>, levels: seq<int>, currentDepth: int): (r: seq<TocItem>)
    ensures AllDepthsIn(r, levels)
    ensures Canonical(r)
    ensures |r| <= |ls|
    decreases ls
  {
    if ls == [] then []
    else
      var l := ls[0];
      var rest := NormalizeV3List(ls[1..], levels, currentDepth);
      var d := ResolvedDepth(l, currentDepth);
      if d in levels then
        var kids := match l.children
          case None => []
          case Some(NotArray) => []
          case Some(Arr(cs)) => NormalizeV3List(cs, levels, currentDepth + 1);
        [TocItem(l.id, d, l.text, if |kids| > 0 then Present(kids) else Absent)] + rest
      else
        rest
  }

  /** `normalizeV3Toc(links, levels)` with the default `currentDepth` of 2. */
  function NormalizeV3(links: Links, levels: seq<int>): (r: seq<TocItem>)
    ensures links.NotArray? ==> r == []
    ensures AllDepthsIn(r, levels)
    ensures Canonical(r)
  {
    match links
    case NotArray => []
    case Arr(ls) => NormalizeV3List(ls, levels, RootDepth)
  }

  // ---------------------------------------------------------------------
  // Reading a normalised tree back as raw links
  // ---------------------------------------------------------------------

  /** A `TocItem` tree handed back to a normaliser: each item is read as a link
      with an explicit depth, no level, and its children (if any) as an array. */
  function AsLinks(items: seq<TocItem>): (r: seq<ContentLink>)
    ensures |r| == |items|
    ensures forall i :: 0 <= i < |items| ==>
      && r[i].id == items[i].id && r[i].text == items[i].text
      && r[i].depth == Some(items[i].depth) && r[i].level == None
      && (r[i].children.None? <==> items[i].children.Absent?)
      && (items[i].children.Present? ==> r[i].children == Some(Arr(AsLinks(items[i].children.items))))
    decreases items
  {
    if items == [] then []
    else
      var t := items[0];
      var kids := match t.children
        case Absent => None
        case Present(cs) => Some(Arr(AsLinks(cs)));
      [ContentLink(t.id, Some(t.depth), None, t.text, kids)] + AsLinks(items[1..])
  }

  // ---------------------------------------------------------------------
  // Version 2 properties
  // ---------------------------------------------------------------------

  /** The v2 normaliser works link by link: the result for a concatenation is
      the concatenation of the results, so input order is preserved. */
  lemma {:induction false} NormalizeV2Concat(a: seq<ContentLink>, b: seq<ContentLink>, levels: seq<int>)
    ensures NormalizeV2List(a + b, levels) == NormalizeV2List(a, levels) + NormalizeV2List(b, levels)
    decreases a
  {
    if a == [] {
      assert a + b == b;
    } else {
      assert (a + b)[0] == a[0];
      assert (a + b)[1..] == a[1..] + b;
      NormalizeV2Concat(a[1..], b, levels);
    }
  }

  /** A single link: kept (as exactly one node with its id, text and
      `depth ?? 0`, and a `children` field exactly when the link had one) iff
      `depth ?? 0` is in `levels`; otherwise it yields nothing. */
  lemma NormalizeV2One(l: ContentLink, levels: seq<int>)
    ensures var r := NormalizeV2List([l], levels);
      && (|r| == 1 <==> DepthOr0(l) in levels)
      && (|r| == 0 <==> DepthOr0(l) !in levels)
      && (|r| == 1 ==>
            && r[0].id == l.id && r[0].text == l.text && r[0].depth == DepthOr0(l)
            && (r[0].children.Present? <==> l.children.Some?)
            && (l.children == Some(NotArray) ==> r[0].children == Present([]))
            && (l.children.Some? && l.children.value.Arr? ==>
                  r[0].children == Present(NormalizeV2List(l.children.value.items, levels))))
  {
    assert [l][1..] == [];
  }

  /** A rejected link is dropped together with its whole subtree: the result
      is the same as if the link had not been in the input at all. */
  lemma NormalizeV2DropsSubtree(a: seq<ContentLink>, l: ContentLink, b: seq<ContentLink>, levels: seq<int>)
    requires DepthOr0(l) !in levels
    ensures NormalizeV2List(a + [l] + b, levels) == NormalizeV2List(a + b, levels)
  {
    NormalizeV2Concat(a + [l], b, levels);
    NormalizeV2Concat(a, [l], levels);
    NormalizeV2Concat(a, b, levels);
    NormalizeV2One(l, levels);
  }

  /** A tree whose every depth is allowed passes through the v2 normaliser unchanged. */
  lemma {:induction false} NormalizeV2Fixpoint(items: seq<TocItem>, levels: seq<int>)
    requires AllDepthsIn(items, levels)
    ensures NormalizeV2List(AsLinks(items), levels) == items
    decreases items
  {
    if items != [] {
      var t := items[0];
      var ls := AsLinks(items);
      assert ls[1..] == AsLinks(items[1..]);
      NormalizeV2Fixpoint(items[1..], levels);
      match t.children {
        case Absent =>
        case Present(cs) => NormalizeV2Fixpoint(cs, levels);
      }
    }
  }

  /** Re-normalising the v2 output, read back as links, gives the same tree. */
  lemma NormalizeV2Idempotent(ls: seq<ContentLink>, levels: seq<int>)
    ensures NormalizeV2List(AsLinks(NormalizeV2List(ls, levels)), levels) == NormalizeV2List(ls, levels)
  {
    NormalizeV2Fixpoint(NormalizeV2List(ls, levels), levels);
  }

  // ---------------------------------------------------------------------
  // Version 3 properties
  // ---------------------------------------------------------------------

  /** The v3 normaliser works link by link at a fixed nesting depth. */
  lemma {:induction false} NormalizeV3Concat(a: seq<ContentLink>, b: seq<ContentLink>, levels: seq<int>, currentDepth: int)
    ensures NormalizeV3List(a + b, levels, currentDepth)
         == NormalizeV3List(a, levels, currentDepth) + NormalizeV3List(b, levels, currentDepth)
    decreases a
  {
    if a == [] {
      assert a + b == b;
    } else {
      assert (a + b)[0] == a[0];
      assert (a + b)[1..] == a[1..] + b;
      NormalizeV3Concat(a[1..], b, levels, currentDepth);
    }
  }

  /** A single link: kept iff `depth ?? level ?? currentDepth` is in `levels`;
      its children are normalised one nesting level deeper than `currentDepth`,
      whatever depth the link itself resolved to, and the field is present only
      when that normalised list is non-empty. */
  lemma NormalizeV3One(l: ContentLink, levels: seq<int>, currentDepth: int)
    ensures var r := NormalizeV3List([l], levels, currentDepth);
      && (|r| == 1 <==> ResolvedDepth(l, currentDepth) in levels)
      && (|r| == 0 <==> ResolvedDepth(l, currentDepth) !in levels)
      && (|r| == 1 ==>
            && r[0].id == l.id && r[0].text == l.text
            && r[0].depth == ResolvedDepth(l, currentDepth)
            && var kids := if l.children.Some? && l.children.value.Arr?
                           then NormalizeV3List(l.children.value.items, levels, currentDepth + 1)
                           else [];
               r[0].children == if kids == [] then Absent else Present(kids))
  {
    assert [l][1..] == [];
  }

  /** A rejected link is dropped together with its whole subtree. */
  lemma NormalizeV3DropsSubtree(a: seq<ContentLink>, l: ContentLink, b: seq<ContentLink>, levels: seq<int>, currentDepth: int)
    requires ResolvedDepth(l, currentDepth) !in levels
    ensures NormalizeV3List(a + [l] + b, levels, currentDepth) == NormalizeV3List(a + b, levels, currentDepth)
  {
    NormalizeV3Concat(a + [l], b, levels, currentDepth);
    NormalizeV3Concat(a, [l], levels, currentDepth);
    NormalizeV3Concat(a, b, levels, currentDepth);
    NormalizeV3One(l, levels, currentDepth);
  }

  /** A canonical tree whose every depth is allowed passes through the v3
      normaliser unchanged, at any starting depth: each node carries an
      explicit depth, so inference never applies. */
  lemma {:induction false} NormalizeV3Fixpoint(items: seq<TocItem>, levels: seq<int>, currentDepth: int)
    requires AllDepthsIn(items, levels)
    requires Canonical(items)
    ensures NormalizeV3List(AsLinks(items), levels, currentDepth) == items
    decreases items
  {
    if items != [] {
      var t := items[0];
      var ls := AsLinks(items);
      assert ls[1..] == AsLinks(items[1..]);
      NormalizeV3Fixpoint(items[1..], levels, currentDepth);
      match t.children {
        case Absent =>
        case Present(cs) => NormalizeV3Fixpoint(cs, levels, currentDepth + 1);
      }
    }
  }

  /** Re-normalising the v3 output with the same levels returns the same tree. */
  lemma NormalizeV3Idempotent(links: Links, levels: seq<int>)
    ensures NormalizeV3(Arr(AsLinks(NormalizeV3(links, levels))), levels) == NormalizeV3(links, levels)
  {
    NormalizeV3Fixpoint(NormalizeV3(links, levels), levels, RootDepth);
  }

  // ---------------------------------------------------------------------
  // Where the two normalisers differ
  // ---------------------------------------------------------------------

  /** A link whose children are all rejected: v2 keeps an empty `children`
      list, v3 leaves the field out. */
  lemma EmptyChildrenDiverge()
    ensures var ls := [ContentLink("a", Some(2), None, "A",
                          Some(Arr([ContentLink("b", Some(5), None, "B", None)])))];
      && NormalizeV2List(ls, [2, 3, 4]) == [TocItem("a", 2, "A", Present([]))]
      && NormalizeV3List(ls, [2, 3, 4], RootDepth) == [TocItem("a", 2, "A", Absent)]
  {
    var b := [ContentLink("b", Some(5), None, "B", None)];
    assert b[1..] == [];
    var ls := [ContentLink("a", Some(2), None, "A", Some(Arr(b)))];
    assert ls[1..] == [];
  }

  /** A link with only a `level` (or nothing) is read at depth 0 by v2 and so
      dropped, while v3 reads the level, or infers the depth from nesting. */
  lemma LevelOnlyDiverges()
    ensures var ls := [ContentLink("a", None, Some(3), "A", None), ContentLink("b", None, None, "B", None)];
      && NormalizeV2List(ls, [2, 3, 4]) == []
      && NormalizeV3List(ls, [2, 3, 4], RootDepth) == [TocItem("a", 3, "A", Absent), TocItem("b", 2, "B", Absent)]
  {
    var ls := [ContentLink("a", None, Some(3), "A", None), ContentLink("b", None, None, "B", None)];
    assert ls[1..][1..] == [];
  }

  /** Both normalisers drop a disallowed child with its subtree and keep an
      allowed sibling: levels {2, 3}, a depth-2 parent with a depth-4 and a
      depth-3 child. */
  lemma FilteringExample()
    ensures var ls := [ContentLink("a", Some(2), None, "A", Some(Arr([
                          ContentLink("b", Some(4), None, "B", Some(Arr([ContentLink("d", Some(3), None, "D", None)]))),
                          ContentLink("c", Some(3), None, "C", None)])))];
      && NormalizeV2List(ls, [2, 3]) == [TocItem("a", 2, "A", Present([TocItem("c", 3, "C", Absent)]))]
      && NormalizeV3List(ls, [2, 3], RootDepth) == [TocItem("a", 2, "A", Present([TocItem("c", 3, "C", Absent)]))]
  {
    var d := [ContentLink("d", Some(3), None, "D", None)];
    var cs := [ContentLink("b", Some(4), None, "B", Some(Arr(d))), ContentLink("c", Some(3), None, "C", None)];
    assert cs[1..][1..] == [];
    assert NormalizeV2List(cs[1..], [2, 3]) == [TocItem("c", 3, "C", Absent)];
    var ls := [ContentLink("a", Some(2), None, "A", Some(Arr(cs)))];
    assert ls[1..] == [];
  }
}
