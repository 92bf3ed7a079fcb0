/**
 The flat records the machines view is built from (`SymbolInformation`),
 their kinds (`SymbolKind`) and the icon class each kind is drawn with.
 */
module Symbols {
  import opened Wrappers

  /** `SymbolKind`: a const enum with Machine = 1 and Terminal = 2. */
  datatype Kind = Machine | Terminal

  /** One flat record; `parentId` and `kind` may be undefined. */
  datatype Symbol = Symbol(name: string, id: string, parentId: Option<string>, kind: Option<Kind>)

  /** The ids of `entries`, in order. */
  function IdsOf(entries: seq<Symbol>): (r: seq<string>)
    decreases |entries|
    ensures |r| == |entries|
  {
    if entries == [] then [] else [entries[0].id] + IdsOf(entries[1..])
  }

  lemma {:induction false} IdsOfAppend(a: seq<Symbol>, b: seq<Symbol>)
    ensures IdsOf(a + b) == IdsOf(a) + IdsOf(b)
    decreases |a|
  {
    if a == [] {
      assert a + b == b;
    } else {
      IdsOfAppend(a[1..], b);
      assert (a + b)[1..] == a[1..] + b;
    }
  }

  const MACHINE_CLASS: string := "fa fas fa-circle"
  const TERMINAL_CLASS: string := "fa fa-terminal"

  /** `getClass`: the icon class of a kind; an absent kind has none. */
  function ClassOf(kind: Option<Kind>): (c: Option<string>)
    ensures c.Some? <==> kind.Some?
    ensures kind == Some(Machine) ==> c == Some(MACHINE_CLASS)
    ensures kind == Some(Terminal) ==> c == Some(TERMINAL_CLASS)
  {
    match kind
    case Some(Machine) => Some(MACHINE_CLASS)
    case Some(Terminal) => Some(TERMINAL_CLASS)
    case None => None
  }

  /** The kind an icon class stands for; the inverse of `ClassOf`. */
  function KindOfClass(c: Option<string>): Option<Kind> {
    if c == Some(MACHINE_CLASS) then Some(Machine)
    else if c == Some(TERMINAL_CLASS) then Some(Terminal)
    else None
  }

  /** The icon class identifies the kind: no two kinds share a class. */
  lemma ClassOfRoundTrip(kind: Option<Kind>)
    ensures KindOfClass(ClassOf(kind)) == kind
  {
    assert MACHINE_CLASS != TERMINAL_CLASS by {
      assert |MACHINE_CLASS| != |TERMINAL_CLASS|;
    }
  }
}
