/**
 `publish`: each machine becomes a fixed block of flat records (the machine,
 its status and, when it has a server map, a `servers` record with a port
 record and a `name: ...` record per server), every id drawn from `getId`.
 The used ids and `symbolList` are cleared first; the records are then
 turned into the forest the view shows.
 */
module Publish {
  import opened Wrappers
  import opened Symbols
  import opened UniqueIds
  import opened TreeNodes
  import opened TreeBuilder

  /** One server of a machine; its URL is kept as the string it renders to. */
  datatype Server = Server(name: string, url: string)

  /** `IWorkspaceMachine`; `servers` lists the server map in key order, and is absent when the map is. */
  datatype Machine = Machine(machineName: string, status: string, servers: Option<seq<Server>>)

  /** The records emitted so far and the ids used so far. */
  datatype Emitted = Emitted(entries: seq<Symbol>, ids: seq<string>)

  /** The contribution's own state: the used ids and `symbolList`. */
  datatype Contribution = Contribution(ids: seq<string>, symbolList: seq<Symbol>)

  /** What `publish` leaves behind: the new state, the records and the forest handed to the view. */
  datatype Published = Published(state: Contribution, entries: seq<Symbol>, roots: seq<TreeNode>)

  const SERVERS_ENTRY_NAME: string := "servers"

  /** Recording the ids of `a` and then those of `b` records the ids of `a + b`. */
  lemma RecordInTurn(ids: seq<string>, a: seq<Symbol>, mid: seq<string>, b: seq<Symbol>, after: seq<string>)
    requires mid == ids + IdsOf(a)
    requires after == mid + IdsOf(b)
    ensures after == ids + IdsOf(a + b)
  {
    IdsOfAppend(a, b);
    assert (ids + IdsOf(a)) + IdsOf(b) == ids + (IdsOf(a) + IdsOf(b));
  }

  /** Two `getId` calls in a row record the ids of two records. */
  lemma RecordTwo(ids: seq<string>, x: Symbol, y: Symbol, mid: seq<string>, after: seq<string>)
    requires mid == ids + [x.id]
    requires after == mid + [y.id]
    ensures after == ids + IdsOf([x, y])
  {
    assert IdsOf([x, y]) == [x.id] + IdsOf([y]);
    assert [x, y][1..] == [y];
  }

  /** Three `getId` calls in a row record the ids of three records. */
  lemma RecordThree(ids: seq<string>, x: Symbol, y: Symbol, z: Symbol, mid: seq<string>, after: seq<string>)
    requires mid == ids + IdsOf([x, y])
    requires after == mid + [z.id]
    ensures after == ids + IdsOf([x, y, z])
  {
    assert [x, y, z] == [x, y] + [z];
    IdsOfAppend([x, y], [z]);
  }

  /** The port record and the name record of `server`, under the record with id `serversId`. */
  ghost predicate ServerPair(port: Symbol, tag: Symbol, server: Server, serversId: string) {
    && port.name == server.url
    && port.parentId == Some(serversId)
    && port.kind == None
    && IdFrom(port.id, server.name + "_port", 200)
    && tag.name == "name: " + server.name
    && tag.parentId == Some(port.id)
    && tag.kind == None
    && IdFrom(tag.id, server.name + "_name", 0)
  }

  /** `es` holds, pair by pair, the port and name records of `servers`. */
  ghost predicate ServerPairs(es: seq<Symbol>, servers: seq<Server>, serversId: string)
    decreases |servers|
  {
    && |es| == 2 * |servers|
    && (servers != [] ==>
          && ServerPair(es[0], es[1], servers[0], serversId)
          && ServerPairs(es[2..], servers[1..], serversId))
  }

  /** The inner `forEach` over the server names. */
  function ServerEntries(servers: seq<Server>, serversId: string, ids: seq<string>): (r: Emitted)
    decreases |servers|
    ensures |r.entries| == 2 * |servers|
    ensures r.ids == ids + IdsOf(r.entries)
  {
    if servers == [] then Emitted([], ids)
    else
      var server := servers[0];
      var port := GetId(ids, server.name + "_port", 200);
      var portEntry := Symbol(server.url, port.id, Some(serversId), None);
      var tag := GetId(port.ids, server.name + "_name", 0);
      var tagEntry := Symbol("name: " + server.name, tag.id, Some(port.id), None);
      var rest := ServerEntries(servers[1..], serversId, tag.ids);
      RecordTwo(ids, portEntry, tagEntry, port.ids, tag.ids);
      RecordInTurn(ids, [portEntry, tagEntry], tag.ids, rest.entries, rest.ids);
      Emitted([portEntry, tagEntry] + rest.entries, rest.ids)
  }

  lemma {:induction false} ServerEntriesShape(servers: seq<Server>, serversId: string, ids: seq<string>)
    ensures ServerPairs(ServerEntries(servers, serversId, ids).entries, servers, serversId)
    decreases |servers|
  {
    if servers != [] {
      var es := ServerEntries(servers, serversId, ids).entries;
      var port := GetId(ids, servers[0].name + "_port", 200);
      var tag := GetId(port.ids, servers[0].name + "_name", 0);
      ServerEntriesShape(servers[1..], serversId, tag.ids);
      assert es[2..] == ServerEntries(servers[1..], serversId, tag.ids).entries;
    }
  }

  /** The number of records a machine contributes. */
  function BlockSize(m: Machine): nat {
    match m.servers
    case None => 2
    case Some(servers) => 3 + 2 * |servers|
  }

  /** The records of one machine have the fixed shape `publish` builds. */
  ghost predicate MachineShape(m: Machine, es: seq<Symbol>) {
    && |es| == BlockSize(m)
    && es[0].name == m.machineName
    && es[0].parentId == None
    && es[0].kind == Some(Kind.Machine)
    && IdFrom(es[0].id, m.machineName, 0)
    && es[1].name == m.status
    && es[1].parentId == Some(es[0].id)
    && es[1].kind == None
    && IdFrom(es[1].id, m.machineName + "_status", 0)
    && (m.servers.Some? ==>
          && es[2].name == SERVERS_ENTRY_NAME
          && es[2].parentId == Some(es[0].id)
          && es[2].kind == None
          && IdFrom(es[2].id, SERVERS_ENTRY_NAME, 100)
          && ServerPairs(es[3..], m.servers.value, es[2].id))
  }

  /** The body of the outer `forEach`: the records of one machine. */
  function MachineEntries(m: Machine, ids: seq<string>): (r: Emitted)
    ensures |r.entries| == BlockSize(m)
    ensures r.ids == ids + IdsOf(r.entries)
  {
    var machine := GetId(ids, m.machineName, 0);
    var machineEntry := Symbol(m.machineName, machine.id, None, Some(Kind.Machine));
    var status := GetId(machine.ids, m.machineName + "_status", 0);
    var statusEntry := Symbol(m.status, status.id, Some(machine.id), None);
    match m.servers
    case None =>
      RecordTwo(ids, machineEntry, statusEntry, machine.ids, status.ids);
      Emitted([machineEntry, statusEntry], status.ids)
    case Some(servers) =>
      var group := GetId(status.ids, SERVERS_ENTRY_NAME, 100);
      var groupEntry := Symbol(SERVERS_ENTRY_NAME, group.id, Some(machine.id), None);
      var rest := ServerEntries(servers, group.id, group.ids);
      RecordTwo(ids, machineEntry, statusEntry, machine.ids, status.ids);
      RecordThree(ids, machineEntry, statusEntry, groupEntry, status.ids, group.ids);
      RecordInTurn(ids, [machineEntry, statusEntry, groupEntry], group.ids, rest.entries, rest.ids);
      Emitted([machineEntry, statusEntry, groupEntry] + rest.entries, rest.ids)
  }

  lemma MachineEntriesShape(m: Machine, ids: seq<string>)
    ensures MachineShape(m, MachineEntries(m, ids).entries)
  {
    if m.servers.Some? {
      var machine := GetId(ids, m.machineName, 0);
      var status := GetId(machine.ids, m.machineName + "_status", 0);
      var group := GetId(status.ids, SERVERS_ENTRY_NAME, 100);
      ServerEntriesShape(m.servers.value, group.id, group.ids);
      assert MachineEntries(m, ids).entries[3..] == ServerEntries(m.servers.value, group.id, group.ids).entries;
    }
  }

  /** The number of records all machines contribute. */
  function TotalSize(machines: seq<Machine>): nat
    decreases |machines|
  {
    if machines == [] then 0 else BlockSize(machines[0]) + TotalSize(machines[1..])
  }

  /** The outer `forEach` over the machines. */
  function AllEntries(machines: seq<Machine>, ids: seq<string>): (r: Emitted)
    decreases |machines|
    ensures |r.entries| == TotalSize(machines)
    ensures r.ids == ids + IdsOf(r.entries)
  {
    if machines == [] then Emitted([], ids)
    else
      var block := MachineEntries(machines[0], ids);
      var rest := AllEntries(machines[1..], block.ids);
      RecordInTurn(ids, block.entries, block.ids, rest.entries, rest.ids);
      Emitted(block.entries + rest.entries, rest.ids)
  }

  /**
   `es` is the blocks of `machines`, one after the other, each of the shape
   `publish` builds for its machine.
   */
  ghost predicate Blocks(es: seq<Symbol>, machines: seq<Machine>)
    decreases |machines|
  {
    if machines == [] then es == []
    else
      var n := BlockSize(machines[0]);
      && n <= |es|
      && MachineShape(machines[0], es[..n])
      && Blocks(es[n..], machines[1..])
  }

  lemma {:induction false} AllEntriesShape(machines: seq<Machine>, ids: seq<string>)
    ensures Blocks(AllEntries(machines, ids).entries, machines)
    decreases |machines|
  {
    if machines != [] {
      var block := MachineEntries(machines[0], ids);
      var rest := AllEntries(machines[1..], block.ids);
      MachineEntriesShape(machines[0], ids);
      AllEntriesShape(machines[1..], block.ids);
      var es := AllEntries(machines, ids).entries;
      assert es[..|block.entries|] == block.entries;
      assert es[|block.entries|..] == rest.entries;
    }
  }

  /** `publish(machines)`. */
  function Publish(previous: Contribution, machines: seq<Machine>): (r: Published)
    ensures |r.entries| == TotalSize(machines)
    ensures Blocks(r.entries, machines)
    ensures r.state.ids == IdsOf(r.entries)
    ensures |r.state.symbolList| == Size(r.roots)
    ensures IdsOf(r.state.symbolList) == PushOrder(r.roots)
    ensures r.roots == CreateTree(None, r.entries).nodes
  {
    var emitted := AllEntries(machines, []);
    var tree := CreateTree(None, emitted.entries);
    AllEntriesShape(machines, []);
    CreateTreeConvertedCount(None, emitted.entries);
    CreateTreePushOrder(None, emitted.entries);
    Published(Contribution(emitted.ids, tree.converted), emitted.entries, tree.nodes)
  }

  // ---------------------------------------------------------------------------
  // The roots of the published forest
  // ---------------------------------------------------------------------------

  lemma IdFromNotEmpty(id: string, name: string, counter: nat)
    requires IdFrom(id, name, counter)
    ensures id != ""
  {
    var k :| counter <= k <= Max(counter, CAP - 1) && id == Candidate(name, k);
  }

  /** Records that all name a (non-empty) parent contribute no root. */
  lemma {:induction false} NoRootsAmong(es: seq<Symbol>)
    requires forall e :: e in es ==> !IsTopLevel(e)
    ensures ChildRecords(None, es) == []
    decreases |es|
  {
    if es != [] {
      NoRootsAmong(es[1..]);
    }
  }

  lemma {:induction false} ServerPairsNotTopLevel(es: seq<Symbol>, servers: seq<Server>, serversId: string)
    requires ServerPairs(es, servers, serversId)
    requires serversId != ""
    ensures forall e :: e in es ==> !IsTopLevel(e)
    decreases |servers|
  {
    if servers != [] {
      IdFromNotEmpty(es[0].id, servers[0].name + "_port", 200);
      ServerPairsNotTopLevel(es[2..], servers[1..], serversId);
      assert es == [es[0], es[1]] + es[2..];
    }
  }

  /** The only top-level record of a machine's block is the machine record itself. */
  lemma BlockRoots(m: Machine, es: seq<Symbol>)
    requires MachineShape(m, es)
    ensures ChildRecords(None, es) == [es[0]]
  {
    IdFromNotEmpty(es[0].id, m.machineName, 0);
    if m.servers.Some? {
      IdFromNotEmpty(es[2].id, SERVERS_ENTRY_NAME, 100);
      ServerPairsNotTopLevel(es[3..], m.servers.value, es[2].id);
      assert es[1..] == [es[1], es[2]] + es[3..];
      assert forall e :: e in es[1..] ==> !IsTopLevel(e);
      NoRootsAmong(es[1..]);
    } else {
      assert es[1..] == [es[1]];
      NoRootsAmong(es[1..]);
    }
  }

  /** `cs` are machine records, one per machine of `machines`, in order. */
  predicate MachineRecords(cs: seq<Symbol>, machines: seq<Machine>) {
    && |cs| == |machines|
    && forall i :: 0 <= i < |machines| ==>
         cs[i].name == machines[i].machineName && cs[i].kind == Some(Kind.Machine)
  }

  /** The top-level records of all blocks are the machine records, one per machine, in order. */
  lemma {:induction false} AllEntriesRoots(machines: seq<Machine>, ids: seq<string>)
    ensures MachineRecords(ChildRecords(None, AllEntries(machines, ids).entries), machines)
    decreases |machines|
  {
    if machines != [] {
      var block := MachineEntries(machines[0], ids);
      var rest := AllEntries(machines[1..], block.ids);
      MachineEntriesShape(machines[0], ids);
      BlockRoots(machines[0], block.entries);
      ChildRecordsAppend(None, block.entries, rest.entries);
      AllEntriesRoots(machines[1..], block.ids);
      MachineRecordsCons(block.entries[0], ChildRecords(None, rest.entries), machines[0], machines[1..]);
      assert machines == [machines[0]] + machines[1..];
    }
  }

  lemma MachineRecordsCons(c: Symbol, cs: seq<Symbol>, m: Machine, machines: seq<Machine>)
    requires c.name == m.machineName && c.kind == Some(Kind.Machine)
    requires MachineRecords(cs, machines)
    ensures MachineRecords([c] + cs, [m] + machines)
  {
    forall i | 1 <= i < |machines| + 1
      ensures ([c] + cs)[i].name == ([m] + machines)[i].machineName
    {
      assert ([c] + cs)[i] == cs[i - 1];
    }
  }

  /** `publish` shows one root per machine, in order: the machine's name with the machine icon. */
  lemma PublishRoots(previous: Contribution, machines: seq<Machine>)
    ensures |Publish(previous, machines).roots| == |machines|
    ensures forall i :: 0 <= i < |machines| ==>
              var n := Publish(previous, machines).roots[i];
              && n.SymbolNode?
              && n.name == machines[i].machineName
              && n.iconClass == Some(MACHINE_CLASS)
              && n.parentId == None
              && !n.selected && !n.expanded
  {
    AllEntriesRoots(machines, []);
  }

  // ---------------------------------------------------------------------------
  // Distinct ids
  // ---------------------------------------------------------------------------

  predicate Distinct(s: seq<string>) {
    forall i, j :: 0 <= i < j < |s| ==> s[i] != s[j]
  }

  /** The largest starting counter `publish` hands to `getId`. */
  const MAX_START: nat := 200

  /** With room left below the cap, `getId` keeps the used ids distinct. */
  lemma GetIdKeepsDistinct(ids: seq<string>, name: string, counter: nat)
    requires Distinct(ids)
    requires counter <= MAX_START && |ids| < CAP - MAX_START
    ensures Distinct(GetId(ids, name, counter).ids)
  {
    GetIdFreshWhenRoom(ids, name, counter);
  }

  lemma {:induction false} ServerEntriesDistinct(servers: seq<Server>, serversId: string, ids: seq<string>)
    requires Distinct(ids)
    requires |ids| + 2 * |servers| <= CAP - MAX_START
    ensures Distinct(ServerEntries(servers, serversId, ids).ids)
    decreases |servers|
  {
    if servers != [] {
      var port := GetId(ids, servers[0].name + "_port", 200);
      GetIdKeepsDistinct(ids, servers[0].name + "_port", 200);
      var tag := GetId(port.ids, servers[0].name + "_name", 0);
      GetIdKeepsDistinct(port.ids, servers[0].name + "_name", 0);
      ServerEntriesDistinct(servers[1..], serversId, tag.ids);
    }
  }

  lemma MachineEntriesDistinct(m: Machine, ids: seq<string>)
    requires Distinct(ids)
    requires |ids| + BlockSize(m) <= CAP - MAX_START
    ensures Distinct(MachineEntries(m, ids).ids)
  {
    var machine := GetId(ids, m.machineName, 0);
    GetIdKeepsDistinct(ids, m.machineName, 0);
    var status := GetId(machine.ids, m.machineName + "_status", 0);
    GetIdKeepsDistinct(machine.ids, m.machineName + "_status", 0);
    if m.servers.Some? {
      var group := GetId(status.ids, SERVERS_ENTRY_NAME, 100);
      GetIdKeepsDistinct(status.ids, SERVERS_ENTRY_NAME, 100);
      ServerEntriesDistinct(m.servers.value, group.id, group.ids);
    }
  }

  lemma {:induction false} AllEntriesDistinct(machines: seq<Machine>, ids: seq<string>)
    requires Distinct(ids)
    requires |ids| + TotalSize(machines) <= CAP - MAX_START
    ensures Distinct(AllEntries(machines, ids).ids)
    decreases |machines|
  {
    if machines != [] {
      var block := MachineEntries(machines[0], ids);
      MachineEntriesDistinct(machines[0], ids);
      AllEntriesDistinct(machines[1..], block.ids);
    }
  }

  /**
   While at most 800 records are published, every record gets an id of its
   own: no `getId` call reaches the cap.
   */
  lemma PublishIdsDistinct(previous: Contribution, machines: seq<Machine>)
    requires TotalSize(machines) <= CAP - MAX_START
    ensures Distinct(Publish(previous, machines).state.ids)
  {
    AllEntriesDistinct(machines, []);
  }
}
