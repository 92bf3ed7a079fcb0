/**
 `createTree` and `convertToNode`: the flat records become a forest of
 machines nodes. A node's children are the records naming its id as their
 parent, looked up in the list with the node's own record removed, so every
 recursive call works on a strictly shorter list. Every converted node is
 also pushed onto `symbolList`; the model returns those pushes as
 `converted`, in the order the source makes them.
 */
module TreeBuilder {
  import opened Wrappers
  import opened Symbols
  import opened TreeNodes

  /** A falsy `parentId`: undefined or the empty string. */
  predicate IsTopLevel(s: Symbol) {
    s.parentId == None || s.parentId == Some("")
  }

  /** The filter of `createTree`: with no parent node the top-level records, otherwise those naming the parent's id. */
  predicate BelongsUnder(parent: Option<Symbol>, s: Symbol) {
    match parent
    case None => IsTopLevel(s)
    case Some(p) => s.parentId == Some(p.id)
  }

  /** The records `createTree` turns into nodes at this level, in list order. */
  function ChildRecords(parent: Option<Symbol>, list: seq<Symbol>): (cs: seq<Symbol>)
    decreases |list|
    ensures |cs| <= |list|
  {
    if list == [] then []
    else (if BelongsUnder(parent, list[0]) then [list[0]] else []) + ChildRecords(parent, list[1..])
  }

  /** The level filter keeps exactly the records that belong under `parent`. */
  lemma {:induction false} ChildRecordsMembers(parent: Option<Symbol>, list: seq<Symbol>)
    ensures forall s :: s in ChildRecords(parent, list) <==> s in list && BelongsUnder(parent, s)
    decreases |list|
  {
    if list != [] {
      ChildRecordsMembers(parent, list[1..]);
    }
  }

  /** The list handed to a child's recursion: every record with the child's id removed. */
  function Without(list: seq<Symbol>, id: string): (r: seq<Symbol>)
    decreases |list|
    ensures |r| <= |list|
    ensures forall s :: s in list && s.id == id ==> |r| < |list|
  {
    if list == [] then []
    else (if list[0].id != id then [list[0]] else []) + Without(list[1..], id)
  }

  /** `Without` keeps exactly the records with another id. */
  lemma {:induction false} WithoutMembers(list: seq<Symbol>, id: string)
    ensures forall s :: s in Without(list, id) <==> s in list && s.id != id
    decreases |list|
  {
    if list != [] {
      WithoutMembers(list[1..], id);
    }
  }

  /** The `parent` a converted node gets, as the parent node's id. */
  function ParentIdOf(parent: Option<Symbol>): Option<string> {
    match parent
    case None => None
    case Some(p) => Some(p.id)
  }

  /** `convertToNode`: the node for record `s` under `parent`, collapsed and unselected. */
  function ConvertToNode(s: Symbol, parent: Option<Symbol>, children: seq<TreeNode>): (n: TreeNode)
    ensures Mirrors(n, s, parent)
    ensures n.children == children
  {
    SymbolNode(s.id, s.name, ClassOf(s.kind), ParentIdOf(parent), false, false, children)
  }

  /** Node `n` shows record `s` under `parent`, as freshly converted. */
  predicate Mirrors(n: TreeNode, s: Symbol, parent: Option<Symbol>) {
    && n.SymbolNode?
    && n.id == s.id
    && n.name == s.name
    && n.iconClass == ClassOf(s.kind)
    && n.parentId == ParentIdOf(parent)
    && !n.selected
    && !n.expanded
  }

  /** The nodes of one level and the records pushed onto `symbolList` while building them. */
  datatype Forest = Forest(nodes: seq<TreeNode>, converted: seq<Symbol>)

  /** `createTree(parentNode, symbolInformationList)`. */
  function CreateTree(parent: Option<Symbol>, list: seq<Symbol>): (r: Forest)
    decreases |list|, 1
    ensures |r.nodes| == |ChildRecords(parent, list)|
    ensures forall i :: 0 <= i < |r.nodes| ==> Mirrors(r.nodes[i], ChildRecords(parent, list)[i], parent)
    ensures |r.nodes| <= |r.converted| && r.converted[..|r.nodes|] == ChildRecords(parent, list)
  {
    var cs := ChildRecords(parent, list);
    ChildRecordsMembers(parent, list);
    var sub := Subtrees(parent, cs, list);
    Forest(sub.nodes, cs + sub.converted)
  }

  /** The `forEach` of `createTree`: gives each converted node its children, in order. */
  function Subtrees(parent: Option<Symbol>, cs: seq<Symbol>, list: seq<Symbol>): (r: Forest)
    requires forall s :: s in cs ==> s in list
    decreases |list|, 0, |cs|
    ensures |r.nodes| == |cs|
    ensures forall i :: 0 <= i < |cs| ==>
              Mirrors(r.nodes[i], cs[i], parent)
              && r.nodes[i].children == CreateTree(Some(cs[i]), Without(list, cs[i].id)).nodes
  {
    if cs == [] then Forest([], [])
    else
      var sub := CreateTree(Some(cs[0]), Without(list, cs[0].id));
      var rest := Subtrees(parent, cs[1..], list);
      Forest([ConvertToNode(cs[0], parent, sub.nodes)] + rest.nodes, sub.converted + rest.converted)
  }

  /** Node i's children are the forest built for record i from the list without record i's id. */
  lemma CreateTreeChildren(parent: Option<Symbol>, list: seq<Symbol>)
    ensures forall i :: 0 <= i < |CreateTree(parent, list).nodes| ==>
              var s := ChildRecords(parent, list)[i];
              s in list && CreateTree(parent, list).nodes[i].children == CreateTree(Some(s), Without(list, s.id)).nodes
  {
  }

  // ---------------------------------------------------------------------------
  // The filter of one level
  // ---------------------------------------------------------------------------

  /** The level filter keeps list order: it distributes over concatenation. */
  lemma {:induction false} ChildRecordsAppend(parent: Option<Symbol>, a: seq<Symbol>, b: seq<Symbol>)
    ensures ChildRecords(parent, a + b) == ChildRecords(parent, a) + ChildRecords(parent, b)
    decreases |a|
  {
    if a == [] {
      assert a + b == b;
    } else {
      var head := if BelongsUnder(parent, a[0]) then [a[0]] else [];
      calc {
        ChildRecords(parent, a + b);
        { assert (a + b)[0] == a[0]; assert (a + b)[1..] == a[1..] + b; }
        head + ChildRecords(parent, a[1..] + b);
        { ChildRecordsAppend(parent, a[1..], b); }
        head + (ChildRecords(parent, a[1..]) + ChildRecords(parent, b));
        (head + ChildRecords(parent, a[1..])) + ChildRecords(parent, b);
      }
    }
  }

  lemma {:induction false} WithoutAppend(a: seq<Symbol>, b: seq<Symbol>, id: string)
    ensures Without(a + b, id) == Without(a, id) + Without(b, id)
    decreases |a|
  {
    if a == [] {
      assert a + b == b;
    } else {
      var head := if a[0].id != id then [a[0]] else [];
      calc {
        Without(a + b, id);
        { assert (a + b)[0] == a[0]; assert (a + b)[1..] == a[1..] + b; }
        head + Without(a[1..] + b, id);
        { WithoutAppend(a[1..], b, id); }
        head + (Without(a[1..], id) + Without(b, id));
        (head + Without(a[1..], id)) + Without(b, id);
      }
    }
  }

  /**
   The children of the node for record `p` come from exactly the records of
   the list, other than those carrying `p`'s own id, whose `parentId` is
   `p`'s id, in list order.
   */
  lemma {:induction false} ChildrenOfRecord(p: Symbol, list: seq<Symbol>)
    ensures ChildRecords(Some(p), Without(list, p.id)) == Without(ChildRecords(Some(p), list), p.id)
    decreases |list|
  {
    if list != [] {
      var x, rest := list[0], list[1..];
      assert list == [x] + rest;
      ChildrenOfRecord(p, rest);
      WithoutAppend([x], rest, p.id);
      ChildRecordsAppend(Some(p), [x], rest);
      WithoutAppend(ChildRecords(Some(p), [x]), ChildRecords(Some(p), rest), p.id);
      ChildRecordsAppend(Some(p), Without([x], p.id), Without(rest, p.id));
      assert ChildRecords(Some(p), Without([x], p.id)) == Without(ChildRecords(Some(p), [x]), p.id);
    }
  }

  /** Some record of `list` other than `p`'s own names `p`'s id as its parent. */
  ghost predicate NamedAsParent(list: seq<Symbol>, p: Symbol) {
    exists s :: s in list && s.id != p.id && s.parentId == Some(p.id)
  }

  lemma HasChildRecords(p: Symbol, list: seq<Symbol>)
    ensures |ChildRecords(Some(p), Without(list, p.id))| > 0 <==> NamedAsParent(list, p)
  {
    var kids := ChildRecords(Some(p), Without(list, p.id));
    ChildRecordsMembers(Some(p), Without(list, p.id));
    WithoutMembers(list, p.id);
    if |kids| > 0 {
      assert kids[0] in kids;
    }
    if NamedAsParent(list, p) {
      var s :| s in list && s.id != p.id && s.parentId == Some(p.id);
      assert s in kids;
    }
  }

  /**
   A converted node can be expanded exactly when some other record of the
   list names its record's id as parent.
   */
  lemma CreateTreeExpandable(parent: Option<Symbol>, list: seq<Symbol>)
    ensures forall i :: 0 <= i < |CreateTree(parent, list).nodes| ==>
              (IsExpandable(CreateTree(parent, list).nodes[i]) <==> NamedAsParent(list, ChildRecords(parent, list)[i]))
  {
    var r := CreateTree(parent, list);
    var cs := ChildRecords(parent, list);
    CreateTreeChildren(parent, list);
    forall i | 0 <= i < |r.nodes|
      ensures IsExpandable(r.nodes[i]) <==> NamedAsParent(list, cs[i])
    {
      HasChildRecords(cs[i], list);
    }
  }

  // ---------------------------------------------------------------------------
  // Properties of the whole forest
  // ---------------------------------------------------------------------------

  /**
   Every node of the forest, at every depth, is a fresh machines node: not
   selected, not expanded, and linked to its enclosing node by id (`pid`
   for the top level).
   */
  ghost predicate WellLinked(nodes: seq<TreeNode>, pid: Option<string>)
    decreases nodes
  {
    forall i :: 0 <= i < |nodes| ==>
      && nodes[i].SymbolNode?
      && nodes[i].parentId == pid
      && !nodes[i].selected
      && !nodes[i].expanded
      && WellLinked(nodes[i].children, Some(nodes[i].id))
  }

  lemma {:induction false} CreateTreeWellLinked(parent: Option<Symbol>, list: seq<Symbol>)
    ensures WellLinked(CreateTree(parent, list).nodes, ParentIdOf(parent))
    decreases |list|
  {
    var r := CreateTree(parent, list);
    var cs := ChildRecords(parent, list);
    CreateTreeChildren(parent, list);
    forall i | 0 <= i < |r.nodes|
      ensures WellLinked(r.nodes[i].children, Some(r.nodes[i].id))
    {
      CreateTreeWellLinked(Some(cs[i]), Without(list, cs[i].id));
    }
  }

  /** Every node, at every depth, shows the id, name and icon class of a record of `universe`. */
  ghost predicate DerivedFrom(nodes: seq<TreeNode>, universe: seq<Symbol>)
    decreases nodes
  {
    forall i :: 0 <= i < |nodes| ==>
      && nodes[i].SymbolNode?
      && (exists s :: s in universe && s.id == nodes[i].id && s.name == nodes[i].name
                      && ClassOf(s.kind) == nodes[i].iconClass)
      && DerivedFrom(nodes[i].children, universe)
  }

  /** `createTree` invents no node: each one comes from a record of its input. */
  lemma {:induction false} CreateTreeSound(parent: Option<Symbol>, list: seq<Symbol>, universe: seq<Symbol>)
    requires forall s :: s in list ==> s in universe
    ensures DerivedFrom(CreateTree(parent, list).nodes, universe)
    decreases |list|
  {
    var r := CreateTree(parent, list);
    var cs := ChildRecords(parent, list);
    CreateTreeChildren(parent, list);
    forall i | 0 <= i < |r.nodes|
      ensures DerivedFrom(r.nodes[i].children, universe)
    {
      WithoutMembers(list, cs[i].id);
      CreateTreeSound(Some(cs[i]), Without(list, cs[i].id), universe);
    }
    forall i | 0 <= i < |r.nodes|
      ensures exists s :: s in universe && s.id == r.nodes[i].id && s.name == r.nodes[i].name
                          && ClassOf(s.kind) == r.nodes[i].iconClass
    {
      assert cs[i] in cs;
    }
  }

  /** No node repeats the id of one of its ancestors or of an id in `above`. */
  ghost predicate NoRepeatOnPath(nodes: seq<TreeNode>, above: set<string>)
    decreases nodes
  {
    forall i :: 0 <= i < |nodes| ==>
      nodes[i].id !in above && NoRepeatOnPath(nodes[i].children, above + {nodes[i].id})
  }

  /**
   Removing a node's own record before recursing cuts every cycle of
   `parentId` links: along any path from a root, ids never repeat.
   */
  lemma {:induction false} CreateTreeNoRepeat(parent: Option<Symbol>, list: seq<Symbol>, above: set<string>)
    requires forall s :: s in list ==> s.id !in above
    ensures NoRepeatOnPath(CreateTree(parent, list).nodes, above)
    decreases |list|
  {
    var r := CreateTree(parent, list);
    var cs := ChildRecords(parent, list);
    CreateTreeChildren(parent, list);
    forall i | 0 <= i < |r.nodes|
      ensures r.nodes[i].id !in above
      ensures NoRepeatOnPath(r.nodes[i].children, above + {r.nodes[i].id})
    {
      assert cs[i] in cs;
      WithoutMembers(list, cs[i].id);
      CreateTreeNoRepeat(Some(cs[i]), Without(list, cs[i].id), above + {cs[i].id});
    }
  }

  /** Every node of the forest is pushed onto `symbolList` exactly once. */
  lemma {:induction false} CreateTreeConvertedCount(parent: Option<Symbol>, list: seq<Symbol>)
    ensures |CreateTree(parent, list).converted| == Size(CreateTree(parent, list).nodes)
    decreases |list|, 1
  {
    var cs := ChildRecords(parent, list);
    ChildRecordsMembers(parent, list);
    SubtreesConvertedCount(parent, cs, list);
  }

  lemma {:induction false} SubtreesConvertedCount(parent: Option<Symbol>, cs: seq<Symbol>, list: seq<Symbol>)
    requires forall s :: s in cs ==> s in list
    ensures |Subtrees(parent, cs, list).converted| + |cs| == Size(Subtrees(parent, cs, list).nodes)
    decreases |list|, 0, |cs|
  {
    if cs != [] {
      var r := Subtrees(parent, cs, list);
      var sub := CreateTree(Some(cs[0]), Without(list, cs[0].id));
      var rest := Subtrees(parent, cs[1..], list);
      CreateTreeConvertedCount(Some(cs[0]), Without(list, cs[0].id));
      SubtreesConvertedCount(parent, cs[1..], list);
      assert r.nodes[1..] == rest.nodes;
    }
  }

  // ---------------------------------------------------------------------------
  // The order of `symbolList`
  // ---------------------------------------------------------------------------

  /** The ids of one level of a forest, in order. */
  function LevelIds(nodes: seq<TreeNode>): (r: seq<string>)
    decreases nodes
    ensures |r| == |nodes|
  {
    if nodes == [] then [] else [nodes[0].id] + LevelIds(nodes[1..])
  }

  /**
   The ids of a forest in the order `createTree` pushes its nodes: the whole
   level first, then each node's subtree in turn.
   */
  function PushOrder(nodes: seq<TreeNode>): seq<string>
    decreases nodes, 1
  {
    LevelIds(nodes) + SubtreeOrder(nodes)
  }

  /** The push order of each node's subtree, node by node. */
  function SubtreeOrder(nodes: seq<TreeNode>): seq<string>
    decreases nodes, 0
  {
    if nodes == [] then [] else PushOrder(nodes[0].children) + SubtreeOrder(nodes[1..])
  }

  lemma {:induction false} LevelIdsMirror(nodes: seq<TreeNode>, cs: seq<Symbol>)
    requires |nodes| == |cs|
    requires forall i :: 0 <= i < |cs| ==> nodes[i].id == cs[i].id
    ensures LevelIds(nodes) == IdsOf(cs)
    decreases |cs|
  {
    if cs != [] {
      LevelIdsMirror(nodes[1..], cs[1..]);
    }
  }

  /** `symbolList` receives the forest's records level first, then subtree by subtree. */
  lemma {:induction false} CreateTreePushOrder(parent: Option<Symbol>, list: seq<Symbol>)
    ensures IdsOf(CreateTree(parent, list).converted) == PushOrder(CreateTree(parent, list).nodes)
    decreases |list|, 1
  {
    var cs := ChildRecords(parent, list);
    ChildRecordsMembers(parent, list);
    var sub := Subtrees(parent, cs, list);
    SubtreesPushOrder(parent, cs, list);
    IdsOfAppend(cs, sub.converted);
    LevelIdsMirror(sub.nodes, cs);
  }

  lemma {:induction false} SubtreesPushOrder(parent: Option<Symbol>, cs: seq<Symbol>, list: seq<Symbol>)
    requires forall s :: s in cs ==> s in list
    ensures IdsOf(Subtrees(parent, cs, list).converted) == SubtreeOrder(Subtrees(parent, cs, list).nodes)
    decreases |list|, 0, |cs|
  {
    if cs != [] {
      var r := Subtrees(parent, cs, list);
      var sub := CreateTree(Some(cs[0]), Without(list, cs[0].id));
      var rest := Subtrees(parent, cs[1..], list);
      CreateTreePushOrder(Some(cs[0]), Without(list, cs[0].id));
      SubtreesPushOrder(parent, cs[1..], list);
      IdsOfAppend(sub.converted, rest.converted);
      assert r.nodes[1..] == rest.nodes;
      assert r.nodes[0].children == sub.nodes;
    }
  }
}
