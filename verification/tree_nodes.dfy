/**
 The nodes the tree widget displays. A machines node
 (`MachinesSymbolInformationNode`) is selectable, expandable and carries an
 icon class; every other node the widget may hold (the hidden root, for one)
 is a plain node.
 */
module TreeNodes {
  import opened Wrappers

  datatype TreeNode =
    | SymbolNode(id: string, name: string, iconClass: Option<string>, parentId: Option<string>,
                 selected: bool, expanded: bool, children: seq<TreeNode>)
    | PlainNode(id: string, name: string, visible: bool, parentId: Option<string>, children: seq<TreeNode>)

  /**
   `MachinesSymbolInformationNode.is`: the node is selectable and has an
   `iconClass` property. Only `SymbolNode`s carry the selection flag and the
   icon class, so the guard holds for exactly those.
   */
  predicate IsMachinesNode(n: TreeNode)
    ensures IsMachinesNode(n) <==> n.SymbolNode?
  {
    match n
    case SymbolNode(_, _, _, _, _, _, _) => true
    case PlainNode(_, _, _, _, _) => false
  }

  /** `isExpandable`: a machines node with at least one child. */
  predicate IsExpandable(n: TreeNode)
    ensures IsExpandable(n) ==> IsMachinesNode(n)
    ensures n.PlainNode? ==> !IsExpandable(n)
    ensures n.SymbolNode? ==> (IsExpandable(n) <==> n.children != [])
  {
    IsMachinesNode(n) && |n.children| > 0
  }

  /** The number of nodes in a forest, at every depth. */
  function Size(nodes: seq<TreeNode>): nat
    decreases nodes
  {
    if nodes == [] then 0 else 1 + Size(nodes[0].children) + Size(nodes[1..])
  }

  /** A forest with every view flag cleared: what a node is apart from how it is shown. */
  function Skeleton(nodes: seq<TreeNode>): (r: seq<TreeNode>)
    decreases nodes
    ensures |r| == |nodes|
    ensures forall i :: 0 <= i < |nodes| ==>
              r[i].id == nodes[i].id && r[i].name == nodes[i].name && r[i].parentId == nodes[i].parentId
              && (r[i].SymbolNode? <==> nodes[i].SymbolNode?)
              && (r[i].SymbolNode? ==> !r[i].selected && !r[i].expanded)
  {
    if nodes == [] then []
    else
      var head := match nodes[0]
        case SymbolNode(id, name, icon, pid, _, _, kids) => SymbolNode(id, name, icon, pid, false, false, Skeleton(kids))
        case PlainNode(_, _, _, _, _) => nodes[0];
      [head] + Skeleton(nodes[1..])
  }
}
