/** `flattenHeadingIds` of src/runtime/composables/useContentToc.ts: the heading
    ids of a normalised tree, in document (pre-)order. */
module Flatten {
  import opened TocTypes

  /** The ids of a forest in pre-order: a node's id, then the ids of its
      subtree, then those of its later siblings. */
  function PreOrder(items: seq<TocItem>): (r: seq<string>)
    ensures |r| == NodeCount(items)
    ensures items != [] ==> r[0] == items[0].id
    decreases items
  {
    if items == [] then []
    else
      [items[0].id]
      + (match items[0].children
         case Absent => []
         case Present(cs) => PreOrder(cs))
      + PreOrder(items[1..])
  }

  /** Pre-order of a concatenation of forests is the concatenation of their pre-orders. */
  lemma {:induction false} PreOrderConcat(a: seq<TocItem>, b: seq<TocItem>)
    ensures PreOrder(a + b) == PreOrder(a) + PreOrder(b)
    decreases a
  {
    if a == [] {
      assert a + b == b;
    } else {
      assert (a + b)[0] == a[0];
      assert (a + b)[1..] == a[1..] + b;
      PreOrderConcat(a[1..], b);
    }
  }

  /** Some node of the forest, at any depth, carries `id`. */
  predicate HasNode(items: seq<TocItem>, id: string)
    decreases items
  {
    if items == [] then false
    else
      items[0].id == id
      || (match items[0].children
          case Absent => false
          case Present(cs) => HasNode(cs, id))
      || HasNode(items[1..], id)
  }

  /** The id of every node appears in the list, and nothing else does. */
  lemma {:induction false} PreOrderListsEveryNode(items: seq<TocItem>, id: string)
    ensures id in PreOrder(items) <==> HasNode(items, id)
    decreases items
  {
    if items != [] {
      PreOrderListsEveryNode(items[1..], id);
      match items[0].children {
        case Absent =>
        case Present(cs) => PreOrderListsEveryNode(cs, id);
      }
    }
  }

  /** The ids of one node's descendants, in pre-order. */
  function SubtreeIds(t: TocItem): seq<string> {
    match t.children
    case Absent => []
    case Present(cs) => PreOrder(cs)
  }

  /** Extending a prefix of the forest by one more sibling appends that
      sibling's id and its descendants' ids. */
  lemma PreOrderStep(items: seq<TocItem>, i: nat)
    requires i < |items|
    ensures PreOrder(items[..i + 1]) == PreOrder(items[..i]) + [items[i].id] + SubtreeIds(items[i])
  {
    assert items[..i + 1] == items[..i] + [items[i]];
    PreOrderConcat(items[..i], [items[i]]);
    assert [items[i]][1..] == [];
  }

  /** The loop of `flattenHeadingIds`: push each item's id, then the flattened
      ids of its children when it has a `children` field. */
  method FlattenHeadingIds(items: seq<TocItem>) returns (ids: seq<string>)
    ensures ids == PreOrder(items)
    decreases items
  {
    ids := [];
    for i := 0 to |items|
      invariant ids == PreOrder(items[..i])
    {
      var item := items[i];
      PreOrderStep(items, i);
      ids := ids + [item.id];
      if item.children.Present? {
        var sub := FlattenHeadingIds(item.children.items);
        ids := ids + sub;
      }
    }
    assert items[..|items|] == items;
  }

  /** A parent's subtree is listed before its next sibling:
      [x [y], z] flattens to [x, y, z]. */
  lemma PreOrderExample()
    ensures PreOrder([TocItem("x", 2, "X", Present([TocItem("y", 3, "Y", Absent)])), TocItem("z", 2, "Z", Absent)])
         == ["x", "y", "z"]
  {
    var items := [TocItem("x", 2, "X", Present([TocItem("y", 3, "Y", Absent)])), TocItem("z", 2, "Z", Absent)];
    assert items[1..][1..] == [];
    assert [TocItem("y", 3, "Y", Absent)][1..] == [];
  }
}
