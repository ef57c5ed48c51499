/** The normalised table-of-contents tree (`TocItem` in src/runtime/types.ts)
    and the structural predicates the rest of the model states properties with. */
module TocTypes {
  /** One heading of the table of contents. */
  datatype TocItem = TocItem(id: string, depth: int, text: string, children: ChildList)

  /** The optional `children` field: Absent when the field is missing (or
      `undefined`); Present([]) is an explicitly empty list. */
  datatype ChildList = Absent | Present(items: seq<TocItem>)

  /** Every node, at every level of the tree, has a depth listed in `levels`. */
  predicate AllDepthsIn(items: seq<TocItem>, levels: seq<int>)
    decreases items
  {
    if items == [] then true
    else
      items[0].depth in levels
      && (match items[0].children
          case Absent => true
          case Present(cs) => AllDepthsIn(cs, levels))
      && AllDepthsIn(items[1..], levels)
  }

  /** No node, at any level, carries an empty `children` list. */
  predicate Canonical(items: seq<TocItem>)
    decreases items
  {
    if items == [] then true
    else
      (match items[0].children
       case Absent => true
       case Present(cs) => cs != [] && Canonical(cs))
      && Canonical(items[1..])
  }

  /** The number of nodes in the forest, counting every level. */
  function NodeCount(items: seq<TocItem>): nat
    decreases items
  {
    if items == [] then 0
    else
      1
      + (match items[0].children
         case Absent => 0
         case Present(cs) => NodeCount(cs))
      + NodeCount(items[1..])
  }
}
