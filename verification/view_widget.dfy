/**
 The widget side: `reconcileTreeState` carries the expanded and selected
 flags of the machines nodes shown before over to the new forest, and
 `setMachinesTree` installs the reconciled forest under a hidden root.
 */
module ViewWidget {
  import opened Wrappers
  import opened TreeNodes

  /** The view flags of one machines node. */
  datatype Flags = Flags(expanded: bool, selected: bool)

  /**
   What the widget's current model knows by id: the flags of every machines
   node it shows. Ids of nodes that are not machines nodes are absent.
   */
  type ViewState = map<string, Flags>

  /** The flags of a machines node. */
  function FlagsOf(n: TreeNode): Flags
    requires n.SymbolNode?
  {
    Flags(n.expanded, n.selected)
  }

  /** `reconcileTreeState(nodes)` against the view state `shown`. */
  function Reconcile(nodes: seq<TreeNode>, shown: ViewState): (r: seq<TreeNode>)
    decreases nodes
    ensures |r| == |nodes|
    ensures forall i :: 0 <= i < |nodes| && nodes[i].PlainNode? ==> r[i] == nodes[i]
    ensures forall i :: 0 <= i < |nodes| && nodes[i].SymbolNode? ==>
              && r[i].SymbolNode?
              && r[i].id == nodes[i].id
              && r[i].name == nodes[i].name
              && r[i].iconClass == nodes[i].iconClass
              && r[i].parentId == nodes[i].parentId
              && FlagsOf(r[i]) == (if nodes[i].id in shown then shown[nodes[i].id] else FlagsOf(nodes[i]))
              && r[i].children == Reconcile(nodes[i].children, shown)
  {
    if nodes == [] then []
    else
      var head := match nodes[0]
        case SymbolNode(id, name, icon, pid, selected, expanded, kids) =>
          var flags := if id in shown then shown[id] else Flags(expanded, selected);
          SymbolNode(id, name, icon, pid, flags.selected, flags.expanded, Reconcile(kids, shown))
        case PlainNode(_, _, _, _, _) => nodes[0];
      [head] + Reconcile(nodes[1..], shown)
  }

  /** Every machines node reachable through machines nodes shows the flags `shown` holds for its id. */
  ghost predicate Adopted(nodes: seq<TreeNode>, shown: ViewState)
    decreases nodes
  {
    forall i :: 0 <= i < |nodes| && nodes[i].SymbolNode? ==>
      && (nodes[i].id in shown ==> FlagsOf(nodes[i]) == shown[nodes[i].id])
      && Adopted(nodes[i].children, shown)
  }

  /** After reconciliation every machines node the previous view knew shows its previous flags, at every depth. */
  lemma {:induction false} ReconcileAdopts(nodes: seq<TreeNode>, shown: ViewState)
    ensures Adopted(Reconcile(nodes, shown), shown)
    decreases nodes
  {
    var r := Reconcile(nodes, shown);
    forall i | 0 <= i < |r| && r[i].SymbolNode?
      ensures Adopted(r[i].children, shown)
    {
      ReconcileAdopts(nodes[i].children, shown);
    }
  }

  /** Reconciliation changes view flags only: ids, names, icons, parents, order and shape stay. */
  lemma {:induction false} ReconcileKeepsShape(nodes: seq<TreeNode>, shown: ViewState)
    ensures Skeleton(Reconcile(nodes, shown)) == Skeleton(nodes)
    decreases nodes
  {
    if nodes != [] {
      var r := Reconcile(nodes, shown);
      ReconcileKeepsShape(nodes[1..], shown);
      assert r[1..] == Reconcile(nodes[1..], shown);
      if nodes[0].SymbolNode? {
        ReconcileKeepsShape(nodes[0].children, shown);
      }
    }
  }

  /** A second reconciliation against the same view state changes nothing. */
  lemma {:induction false} ReconcileIdempotent(nodes: seq<TreeNode>, shown: ViewState)
    ensures Reconcile(Reconcile(nodes, shown), shown) == Reconcile(nodes, shown)
    decreases nodes
  {
    if nodes != [] {
      var r := Reconcile(nodes, shown);
      ReconcileIdempotent(nodes[1..], shown);
      assert r[1..] == Reconcile(nodes[1..], shown);
      if nodes[0].SymbolNode? {
        ReconcileIdempotent(nodes[0].children, shown);
      }
    }
  }

  /** Against an empty view state (nothing shown before) the forest is left as it is. */
  lemma {:induction false} ReconcileEmptyState(nodes: seq<TreeNode>)
    ensures Reconcile(nodes, map[]) == nodes
    decreases nodes
  {
    if nodes != [] {
      ReconcileEmptyState(nodes[1..]);
      if nodes[0].SymbolNode? {
        ReconcileEmptyState(nodes[0].children);
      }
    }
  }

  /** Whether a node can be expanded does not change under reconciliation. */
  lemma ReconcileKeepsExpandable(nodes: seq<TreeNode>, shown: ViewState)
    ensures forall i :: 0 <= i < |nodes| ==>
              IsExpandable(Reconcile(nodes, shown)[i]) == IsExpandable(nodes[i])
  {
  }

  const ROOT_ID: string := "machines-view-root"
  const ROOT_NAME: string := "Machines Root"

  /** `setMachinesTree(roots)`: the hidden root the widget's model gets. */
  function SetMachinesTree(roots: seq<TreeNode>, shown: ViewState): (root: TreeNode)
    ensures root.PlainNode? && !IsMachinesNode(root) && !IsExpandable(root)
    ensures root.id == ROOT_ID && root.name == ROOT_NAME
    ensures !root.visible && root.parentId == None
    ensures Skeleton(root.children) == Skeleton(roots)
    ensures Adopted(root.children, shown)
    ensures root.children == Reconcile(roots, shown)
  {
    ReconcileKeepsShape(roots, shown);
    ReconcileAdopts(roots, shown);
    PlainNode(ROOT_ID, ROOT_NAME, false, None, Reconcile(roots, shown))
  }
}
