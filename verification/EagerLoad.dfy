/**
 Eager loading of an account query's edges: each loader fills maps in one pass over the parents,
 runs the edge's query with an IN filter, and attaches what comes back in a second pass.
 */
module EagerLoad {
  import opened Options
  import opened EdgeQuery
  import opened EagerJoin

  /** A loader's error: a row came back whose key nobody asked for, or without a key. */
  datatype Outcome = Loaded | Unexpected(id: int) | NilKey(id: int)

  /** What attaching the children ends with: the first one without a key or without an owner stops it. */
  function StrayChild(ids: seq<int>, children: seq<Row>): (r: Outcome)
    ensures r == Loaded <==> forall c :: c in children ==> HasOwner(ids, c)
  {
    assert children != [] ==> children[0] in children;
    if children == [] then Loaded
    else if children[0].key.None? then NilKey(children[0].id)
    else if children[0].key.value !in ids then Unexpected(children[0].id)
    else StrayChild(ids, children[1..])
  }

  /** The same for rows looked up by their own ID. */
  function StrayRow(wanted: int -> bool, rows: seq<Row>): (r: Outcome)
    ensures r == Loaded <==> forall row :: row in rows ==> wanted(row.id)
  {
    if rows == [] then Loaded
    else if !wanted(rows[0].id) then Unexpected(rows[0].id)
    else StrayRow(wanted, rows[1..])
  }

  /** The loaded edges of an account, and which of them were requested. */
  class Node {
    const id: int
    const proxyID: Option<int>
    const loadedGroups: bool
    const loadedProxy: bool
    const loadedUsageLogs: bool
    var groups: seq<Row>
    var proxy: Option<Row>
    var usageLogs: seq<Row>

    constructor (id: int, proxyID: Option<int>, loadedGroups: bool, loadedProxy: bool, loadedUsageLogs: bool)
      ensures this.id == id && this.proxyID == proxyID
      ensures this.loadedGroups == loadedGroups && this.loadedProxy == loadedProxy
      ensures this.loadedUsageLogs == loadedUsageLogs
      ensures groups == [] && proxy == None && usageLogs == []
    {
      this.id, this.proxyID := id, proxyID;
      this.loadedGroups, this.loadedProxy, this.loadedUsageLogs := loadedGroups, loadedProxy, loadedUsageLogs;
      groups, proxy, usageLogs := [], None, [];
    }

    function ProxyOrErr(): (answer: ProxyAnswer)
      reads this`proxy
      ensures answer.NotLoaded? <==> proxy.None? && !loadedProxy
      ensures proxy.Some? ==> answer == Found(proxy.value)
    {
      if proxy.Some? then Found(proxy.value) else if loadedProxy then NotFound else NotLoaded
    }
  }

  datatype ProxyAnswer = Found(proxy: Row) | NotFound | NotLoaded

  function IDs(nodes: seq<Node>): (ids: seq<int>)
    ensures |ids| == |nodes|
    ensures forall i :: 0 <= i < |ids| ==> ids[i] == nodes[i].id
  {
    seq(|nodes|, i requires 0 <= i < |nodes| => nodes[i].id)
  }

  function ProxyKeys(nodes: seq<Node>): (keys: seq<Option<int>>)
    ensures |keys| == |nodes|
    ensures forall i :: 0 <= i < |keys| ==> keys[i] == nodes[i].proxyID
  {
    seq(|nodes|, i requires 0 <= i < |nodes| => nodes[i].proxyID)
  }

  function IsProxyKey(keys: seq<Option<int>>): int -> bool {
    id => Some(id) in keys
  }

  /** The nodes of one query result are separate objects. */
  ghost predicate Separate(nodes: seq<Node>) {
    forall i, j :: 0 <= i < j < |nodes| ==> nodes[i] != nodes[j]
  }

  /** The last account that holds an ID. */
  function OwnerIn(nodes: seq<Node>, k: int): Option<Node> {
    if nodes == [] then None
    else
      var n := |nodes| - 1;
      if nodes[n].id == k then Some(nodes[n]) else OwnerIn(nodes[..n], k)
  }

  /** The map the loaders build: every ID to the last account that holds it. */
  ghost predicate MapsOwners(byID: map<int, Node>, nodes: seq<Node>) {
    forall k :: if k in byID then OwnerIn(nodes, k) == Some(byID[k]) else OwnerIn(nodes, k) == None
  }

  lemma MapsOwnersStep(byID: map<int, Node>, nodes: seq<Node>, i: nat)
    requires i < |nodes| && MapsOwners(byID, nodes[..i])
    ensures MapsOwners(byID[nodes[i].id := nodes[i]], nodes[..i + 1])
  {
    assert nodes[..i + 1][..i] == nodes[..i];
  }

  lemma {:induction false} OwnerInFinds(nodes: seq<Node>, k: int)
    ensures OwnerIn(nodes, k) == None <==> k !in IDs(nodes)
    ensures OwnerIn(nodes, k).Some? ==> OwnerIn(nodes, k).value in nodes
    decreases |nodes|
  {
    if nodes != [] {
      var n := |nodes| - 1;
      OwnerInFinds(nodes[..n], k);
      assert IDs(nodes) == IDs(nodes[..n]) + [nodes[n].id];
    }
  }

  lemma MappedAreHeld(byID: map<int, Node>, nodes: seq<Node>, k: int)
    requires MapsOwners(byID, nodes)
    ensures k in byID <==> k in IDs(nodes)
  {
    OwnerInFinds(nodes, k);
  }

  lemma {:induction false} OwnerInIsOwner(nodes: seq<Node>, k: int, j: nat)
    requires Separate(nodes) && j < |nodes|
    ensures OwnerIn(nodes, k) == Some(nodes[j]) <==> IsOwner(IDs(nodes), j) && nodes[j].id == k
    decreases |nodes|
  {
    var n := |nodes| - 1;
    var rest, ids := nodes[..n], IDs(nodes);
    assert IDs(rest) == ids[..n];
    OwnerInFinds(rest, k);
    if j < n {
      OwnerInIsOwner(rest, k, j);
      assert IsOwner(ids, j) <==> IsOwner(ids[..n], j) && ids[n] != ids[j];
    }
  }

  // ------------------------------------------------------------------ one-to-many

  /** The first pass: collect the IDs, map them to their accounts and reset the edge. */
  method IndexForUsageLogs(nodes: seq<Node>) returns (fks: seq<int>, nodeids: map<int, Node>)
    modifies nodes`usageLogs
    ensures fks == IDs(nodes) && MapsOwners(nodeids, nodes)
    ensures forall j :: 0 <= j < |nodes| ==> nodes[j].usageLogs == []
  {
    fks, nodeids := [], map[];
    for i := 0 to |nodes|
      invariant fks == IDs(nodes)[..i]
      invariant MapsOwners(nodeids, nodes[..i])
      invariant forall j :: 0 <= j < i ==> nodes[j].usageLogs == []
    {
      MapsOwnersStep(nodeids, nodes, i);
      fks := fks + [nodes[i].id];
      nodeids := nodeids[nodes[i].id := nodes[i]];
      nodes[i].usageLogs := [];
    }
    assert nodes[..|nodes|] == nodes;
  }

  /** The children the second pass appends to an account. */
  function ChildrenAssigned(nodeids: map<int, Node>, a: Node, children: seq<Row>): seq<Row> {
    if children == [] then []
    else
      var n := |children| - 1;
      var c := children[n];
      ChildrenAssigned(nodeids, a, children[..n]) +
      if c.key.Some? && c.key.value in nodeids && nodeids[c.key.value] == a then [c] else []
  }

  lemma {:induction false} AssignedIsAttached(nodes: seq<Node>, nodeids: map<int, Node>, children: seq<Row>, j: nat)
    requires Separate(nodes) && MapsOwners(nodeids, nodes) && j < |nodes|
    ensures ChildrenAssigned(nodeids, nodes[j], children) == Attached(IDs(nodes), children, j)
    decreases |children|
  {
    if children != [] {
      var n := |children| - 1;
      AssignedIsAttached(nodes, nodeids, children[..n], j);
      if children[n].key.Some? {
        OwnerInIsOwner(nodes, children[n].key.value, j);
      }
    }
  }

  /** The second pass: append every child to its owner's list. */
  method AttachUsageLogs(nodes: seq<Node>, nodeids: map<int, Node>, children: seq<Row>) returns (out: Outcome)
    requires MapsOwners(nodeids, nodes)
    requires forall a :: a in nodeids.Values ==> a in nodes
    requires forall a :: a in nodes ==> a.usageLogs == []
    modifies nodes`usageLogs
    ensures out == StrayChild(IDs(nodes), children)
    ensures out == Loaded ==> forall a :: a in nodes ==> a.usageLogs == ChildrenAssigned(nodeids, a, children)
  {
    for i := 0 to |children|
      invariant StrayChild(IDs(nodes), children) == StrayChild(IDs(nodes), children[i..])
      invariant forall a :: a in nodes ==> a.usageLogs == ChildrenAssigned(nodeids, a, children[..i])
    {
      var n := children[i];
      assert children[i..][0] == n;
      if n.key.None? {
        return NilKey(n.id);
      }
      if n.key.value !in nodeids {
        MappedAreHeld(nodeids, nodes, n.key.value);
        return Unexpected(n.id);
      }
      MappedAreHeld(nodeids, nodes, n.key.value);
      assert children[..i + 1][..i] == children[..i] && children[i..][1..] == children[i + 1..];
      var node := nodeids[n.key.value];
      assert node in nodeids.Values;
      node.usageLogs := node.usageLogs + [n];
    }
    assert children[..|children|] == children;
    return Loaded;
  }

  /** What a load for these accounts returns from the usage-log edge's query, and leaves of the query. */
  function LogRows(q: QueryState, ids: seq<int>): seq<Row> {
    Fetch(q.source, q.predicates + [KeyIn(ids)], EdgeColumns(q.source, q.fields))
  }

  function AfterLogs(q: QueryState, ids: seq<int>): QueryState {
    q.(predicates := q.predicates + [KeyIn(ids)],
       fields := if q.fields == [] then [] else Once(q.fields, q.source.keyColumn))
  }

  /** Every account's usage logs are the children among these rows, in order. */
  ghost predicate UsageLogsLoaded(nodes: seq<Node>, rows: seq<Row>)
    reads nodes`usageLogs
  {
    forall j :: 0 <= j < |nodes| ==> nodes[j].usageLogs == Attached(IDs(nodes), rows, j)
  }

  method LoadUsageLogs(query: TableQuery, nodes: seq<Node>) returns (out: Outcome)
    requires Separate(nodes)
    modifies query`predicates, query`fields, nodes`usageLogs
    ensures query.State() == AfterLogs(old(query.State()), IDs(nodes))
    ensures out == StrayChild(IDs(nodes), LogRows(old(query.State()), IDs(nodes)))
    ensures out == Loaded ==> UsageLogsLoaded(nodes, LogRows(old(query.State()), IDs(nodes)))
  {
    var fks, nodeids := IndexForUsageLogs(nodes);
    query.NeedField(query.source.keyColumn);
    query.Where(KeyIn(fks));
    var neighbors := query.All(None);
    forall k
      ensures k in nodeids <==> k in IDs(nodes)
      ensures k in nodeids ==> nodeids[k] in nodes
    {
      OwnerInFinds(nodes, k);
    }
    forall a | a in nodeids.Values
      ensures a in nodes
    {
      var k :| k in nodeids && nodeids[k] == a;
    }
    out := AttachUsageLogs(nodes, nodeids, neighbors);
    forall j | 0 <= j < |nodes|
      ensures ChildrenAssigned(nodeids, nodes[j], neighbors) == Attached(IDs(nodes), neighbors, j)
    {
      AssignedIsAttached(nodes, nodeids, neighbors, j);
    }
  }

  // ------------------------------------------------------------------ many-to-one

  /** The accounts whose proxy key is k, in order. */
  function HoldersOf(nodes: seq<Node>, k: int): seq<Node> {
    if nodes == [] then []
    else
      var n := |nodes| - 1;
      HoldersOf(nodes[..n], k) + if nodes[n].proxyID == Some(k) then [nodes[n]] else []
  }

  lemma {:induction false} HolderHasKey(nodes: seq<Node>, k: int, a: Node)
    ensures a in HoldersOf(nodes, k) <==> a in nodes && a.proxyID == Some(k)
    decreases |nodes|
  {
    if nodes != [] {
      var n := |nodes| - 1;
      assert nodes == nodes[..n] + [nodes[n]];
      HolderHasKey(nodes[..n], k, a);
    }
  }

  /** The first pass: each distinct key once, and the accounts that hold it. */
  method IndexForProxy(nodes: seq<Node>) returns (ids: seq<int>, nodeids: map<int, seq<Node>>)
    ensures ids == FirstKeys(ProxyKeys(nodes))
    ensures MapsKeys(nodeids, ids)
    ensures forall k :: k in nodeids ==> nodeids[k] == HoldersOf(nodes, k)
  {
    ids, nodeids := [], map[];
    ghost var keys := ProxyKeys(nodes);
    for i := 0 to |nodes|
      invariant ids == FirstKeys(keys[..i])
      invariant MapsKeys(nodeids, ids) && MapsHolders(nodeids, nodes[..i])
    {
      FirstKeysStep(keys, i);
      if nodes[i].proxyID.Some? {
        var fk := nodes[i].proxyID.value;
        MapsHoldersStep(nodeids, nodes, i);
        MapsKeysStep(nodeids, ids, fk, (if fk in nodeids then nodeids[fk] else []) + [nodes[i]]);
        if fk !in nodeids {
          ids := ids + [fk];
          nodeids := nodeids[fk := []];
        }
        nodeids := nodeids[fk := nodeids[fk] + [nodes[i]]];
      } else {
        MapsHoldersStep(nodeids, nodes, i);
      }
    }
    assert keys[..|nodes|] == keys && nodes[..|nodes|] == nodes;
  }

  /** The requested keys are those of the map. */
  ghost predicate MapsKeys(nodeids: map<int, seq<Node>>, ids: seq<int>) {
    forall k :: k in nodeids <==> k in ids
  }

  lemma MapsKeysStep(nodeids: map<int, seq<Node>>, ids: seq<int>, fk: int, holders: seq<Node>)
    requires MapsKeys(nodeids, ids)
    ensures MapsKeys(nodeids[fk := holders], if fk in nodeids then ids else ids + [fk])
    ensures fk in nodeids <==> fk in ids
  {
  }

  /** One more account's key. */
  lemma FirstKeysStep(keys: seq<Option<int>>, i: nat)
    requires i < |keys|
    ensures var before := FirstKeys(keys[..i]);
            FirstKeys(keys[..i + 1]) ==
            if keys[i].Some? && keys[i].value !in before then before + [keys[i].value] else before
  {
    assert keys[..i + 1][..i] == keys[..i];
  }

  /** The map the proxy loader builds: every key to the accounts that hold it. */
  ghost predicate MapsHolders(nodeids: map<int, seq<Node>>, nodes: seq<Node>) {
    forall k :: HoldersOf(nodes, k) == if k in nodeids then nodeids[k] else []
  }

  lemma MapsHoldersStep(nodeids: map<int, seq<Node>>, nodes: seq<Node>, i: nat)
    requires i < |nodes| && MapsHolders(nodeids, nodes[..i])
    ensures nodes[i].proxyID.None? ==> MapsHolders(nodeids, nodes[..i + 1])
    ensures nodes[i].proxyID.Some? ==>
              var fk := nodes[i].proxyID.value;
              MapsHolders(nodeids[fk := (if fk in nodeids then nodeids[fk] else []) + [nodes[i]]], nodes[..i + 1])
  {
    assert nodes[..i + 1][..i] == nodes[..i];
  }

  /** Assigns one proxy to each of the accounts that hold its key. */
  method AssignProxy(nodes: seq<Node>, holders: seq<Node>, e: Row)
    requires forall a :: a in holders ==> a in nodes
    modifies nodes`proxy
    ensures forall a :: a in nodes ==> a.proxy == if a in holders then Some(e) else old(a.proxy)
  {
    for i := 0 to |holders|
      invariant forall a :: a in nodes ==> a.proxy == if a in holders[..i] then Some(e) else old(a.proxy)
    {
      assert holders[i] in nodes;
      assert holders[..i + 1] == holders[..i] + [holders[i]];
      holders[i].proxy := Some(e);
    }
    assert holders[..|holders|] == holders;
  }

  /** The second pass. */
  method AttachProxies(nodes: seq<Node>, nodeids: map<int, seq<Node>>, neighbors: seq<Row>) returns (out: Outcome)
    requires forall k :: k in nodeids <==> Some(k) in ProxyKeys(nodes)
    requires forall k :: k in nodeids ==> nodeids[k] == HoldersOf(nodes, k)
    requires forall j :: 0 <= j < |nodes| ==> nodes[j].proxy == None
    modifies nodes`proxy
    ensures out == StrayRow(IsProxyKey(ProxyKeys(nodes)), neighbors)
    ensures out == Loaded ==> forall j :: 0 <= j < |nodes| ==> nodes[j].proxy == Target(neighbors, nodes[j].proxyID)
  {
    for i := 0 to |neighbors|
      invariant StrayRow(IsProxyKey(ProxyKeys(nodes)), neighbors) ==
                StrayRow(IsProxyKey(ProxyKeys(nodes)), neighbors[i..])
      invariant forall j :: 0 <= j < |nodes| ==> nodes[j].proxy == Target(neighbors[..i], nodes[j].proxyID)
    {
      var n := neighbors[i];
      assert neighbors[..i + 1][..i] == neighbors[..i] && neighbors[..i + 1][i] == n;
      if n.id !in nodeids {
        return Unexpected(n.id);
      }
      forall a | a in nodeids[n.id]
        ensures a in nodes
      {
        HolderHasKey(nodes, n.id, a);
      }
      forall j | 0 <= j < |nodes|
        ensures nodes[j] in nodeids[n.id] <==> nodes[j].proxyID == Some(n.id)
      {
        HolderHasKey(nodes, n.id, nodes[j]);
      }
      AssignProxy(nodes, nodeids[n.id], n);
    }
    assert neighbors[..|neighbors|] == neighbors;
    return Loaded;
  }

  /** The filter a proxy load adds: none when no account has a proxy. */
  function ProxyFilter(keys: seq<Option<int>>): seq<Pred> {
    if FirstKeys(keys) == [] then [] else [IdIn(FirstKeys(keys))]
  }

  /** What a load for these keys returns from the proxy query, and leaves of the query. */
  function ProxyRows(q: QueryState, keys: seq<Option<int>>): seq<Row> {
    Fetch(q.source, q.predicates + ProxyFilter(keys), ColumnsFor(q.source.all, q.fields, None))
  }

  function AfterProxies(q: QueryState, keys: seq<Option<int>>): QueryState {
    q.(predicates := q.predicates + ProxyFilter(keys))
  }

  /** Nothing is asked of the database when no account has a proxy. */
  function ProxyOutcome(q: QueryState, keys: seq<Option<int>>): Outcome {
    if FirstKeys(keys) == [] then Loaded else StrayRow(IsProxyKey(keys), ProxyRows(q, keys))
  }

  /** Every account's proxy is the one among these rows with its key. */
  ghost predicate ProxiesLoaded(nodes: seq<Node>, rows: seq<Row>)
    reads nodes`proxy
  {
    forall j :: 0 <= j < |nodes| ==> nodes[j].proxy == Target(rows, nodes[j].proxyID)
  }

  method LoadProxy(query: TableQuery, nodes: seq<Node>) returns (out: Outcome)
    requires forall j :: 0 <= j < |nodes| ==> nodes[j].proxy == None
    modifies query`predicates, nodes`proxy
    ensures query.State() == AfterProxies(old(query.State()), ProxyKeys(nodes))
    ensures out == ProxyOutcome(old(query.State()), ProxyKeys(nodes))
    ensures out == Loaded ==> ProxiesLoaded(nodes, ProxyRows(old(query.State()), ProxyKeys(nodes)))
  {
    var ids, nodeids := IndexForProxy(nodes);
    FirstKeysAreDistinct(ProxyKeys(nodes));
    if |ids| == 0 {
      assert forall j :: 0 <= j < |nodes| ==> ProxyKeys(nodes)[j] in ProxyKeys(nodes);
      return Loaded;
    }
    query.Where(IdIn(ids));
    var neighbors := query.All(None);
    out := AttachProxies(nodes, nodeids, neighbors);
  }

  // ------------------------------------------------------------------ many-to-many

  /** The join rows of the groups edge, the group columns and selection, and the interceptors. */
  datatype LinkSource = LinkSource(
    links: seq<JoinRow>, all: TableColumns, fields: seq<string>, intercept: seq<Row> -> seq<Row>)

  function GroupColumns(source: LinkSource): (columns: seq<string>)
    ensures columns != [] && columns[0] == ID
  {
    SelectionKeepsKeys(source.all, source.fields, None);
    ColumnsFor(source.all, source.fields, None)
  }

  /** The row stream for these accounts, as read. */
  function GroupRows(source: LinkSource, ids: seq<int>): seq<JoinRow> {
    ReadRows(InRows(source.links, ids), GroupColumns(source))
  }

  /** What the groups query returns for these accounts. */
  function GroupsFetched(source: LinkSource, ids: seq<int>): seq<Row> {
    source.intercept(FirstGroups(GroupRows(source, ids)))
  }

  /** A scanned value: a key, or the content of another column. */
  datatype Scanned = Key(id: int) | Content(column: string)

  /** The values of one row of the joined query: the account's key, then the group's columns. */
  function JoinValues(row: JoinRow, columns: seq<string>): (values: seq<Scanned>)
    ensures |values| == 1 + |columns|
  {
    [Key(row.account)] + seq(|columns|, i requires 0 <= i < |columns| =>
      if columns[i] == ID then Key(row.group.id) else Content(columns[i]))
  }

  /** The accounts the row stream pairs with a group. */
  function PairedWith(byID: map<int, Node>, rows: seq<JoinRow>, gid: int): set<Node>
    requires forall row :: row in rows ==> row.account in byID
  {
    if rows == [] then {}
    else
      var n := |rows| - 1;
      assert rows[n] in rows;
      PairedWith(byID, rows[..n], gid) + if rows[n].group.id == gid then {byID[rows[n].account]} else {}
  }

  lemma {:induction false} PairedIffLinked(byID: map<int, Node>, nodes: seq<Node>, rows: seq<JoinRow>, gid: int, j: nat)
    requires Separate(nodes) && MapsOwners(byID, nodes) && j < |nodes|
    requires forall row :: row in rows ==> row.account in byID
    ensures nodes[j] in PairedWith(byID, rows, gid) <==>
              IsOwner(IDs(nodes), j) && Linked(rows, nodes[j].id, gid)
    decreases |rows|
  {
    if rows != [] {
      var n := |rows| - 1;
      assert rows == rows[..n] + [rows[n]];
      PairedIffLinked(byID, nodes, rows[..n], gid, j);
      OwnerInIsOwner(nodes, rows[n].account, j);
      LinkedGrows(rows, nodes[j].id, gid);
    }
  }

  lemma LinkedGrows(rows: seq<JoinRow>, aid: int, gid: int)
    requires rows != []
    ensures var n := |rows| - 1;
            Linked(rows, aid, gid) <==>
              Linked(rows[..n], aid, gid) || (rows[n].account == aid && rows[n].group.id == gid)
  {
    var n := |rows| - 1;
    if Linked(rows[..n], aid, gid) {
      var i :| 0 <= i < n && rows[..n][i].account == aid && rows[..n][i].group.id == gid;
      assert rows[i].account == aid && rows[i].group.id == gid;
    }
    if Linked(rows, aid, gid) {
      var i :| 0 <= i < |rows| && rows[i].account == aid && rows[i].group.id == gid;
      assert i < n ==> rows[..n][i].account == aid && rows[..n][i].group.id == gid;
    }
  }

  method IndexForGroups(nodes: seq<Node>) returns (edgeIDs: seq<int>, byID: map<int, Node>)
    modifies nodes`groups
    ensures edgeIDs == IDs(nodes) && MapsOwners(byID, nodes)
    ensures forall j :: 0 <= j < |nodes| ==> nodes[j].groups == []
  {
    edgeIDs, byID := [], map[];
    for i := 0 to |nodes|
      invariant edgeIDs == IDs(nodes)[..i]
      invariant MapsOwners(byID, nodes[..i])
      invariant forall j :: 0 <= j < i ==> nodes[j].groups == []
    {
      MapsOwnersStep(byID, nodes, i);
      edgeIDs := edgeIDs + [nodes[i].id];
      byID := byID[nodes[i].id := nodes[i]];
      nodes[i].groups := [];
    }
    assert nodes[..|nodes|] == nodes;
  }

  /**
   Scanning the row stream: a group is kept at its first row, later rows only add accounts. The
   group's key is taken from the second position, which is the ID for every selection.
   */
  method ScanJoin(byID: map<int, Node>, rows: seq<JoinRow>, columns: seq<string>)
    returns (firsts: seq<Row>, nids: map<int, set<Node>>)
    requires columns != [] && columns[0] == ID
    requires forall row :: row in rows ==> row.account in byID
    ensures forall row :: row in ReadRows(rows, columns) ==> row.account in byID
    ensures firsts == FirstGroups(ReadRows(rows, columns))
    ensures forall gid :: gid in nids <==> Known(ReadRows(rows, columns), gid)
    ensures forall gid :: gid in nids ==> nids[gid] == PairedWith(byID, ReadRows(rows, columns), gid)
  {
    firsts, nids := [], map[];
    ghost var read := ReadRows(rows, columns);
    forall row | row in read
      ensures row.account in byID
    {
      var i :| 0 <= i < |rows| && read[i] == row;
      assert rows[i] in rows;
    }
    for i := 0 to |rows|
      invariant firsts == FirstGroups(read[..i])
      invariant forall gid :: gid in nids <==> Known(read[..i], gid)
      invariant forall gid :: if gid in nids then nids[gid] == PairedWith(byID, read[..i], gid)
                              else PairedWith(byID, read[..i], gid) == {}
    {
      assert read[..i + 1][..i] == read[..i];
      assert forall row :: row in read[..i + 1] ==> row in read;
      forall gid
        ensures Known(read[..i + 1], gid) <==> Known(read[..i], gid) || gid == read[i].group.id
      {
        KnownGrows(read[..i + 1], gid);
      }
      var values := JoinValues(rows[i], columns);
      assert rows[i] in rows && values[0] == Key(rows[i].account) && values[1] == Key(rows[i].group.id);
      var outValue, inValue := values[0].id, values[1].id;
      if inValue !in nids {
        nids := nids[inValue := {byID[outValue]}];
        firsts := firsts + [ReadGroup(rows[i].group, columns)];
      } else {
        nids := nids[inValue := nids[inValue] + {byID[outValue]}];
      }
    }
    assert read[..|rows|] == read;
  }

  /** Appends a group to every account of a set, in whatever order the set yields them. */
  method AssignGroup(nodes: seq<Node>, paired: set<Node>, e: Row)
    requires forall a :: a in paired ==> a in nodes
    modifies nodes`groups
    ensures forall a :: a in nodes ==> a.groups == old(a.groups) + if a in paired then [e] else []
  {
    var remaining := paired;
    while remaining != {}
      invariant remaining <= paired
      invariant forall a :: a in nodes ==>
                  a.groups == old(a.groups) + if a in paired && a !in remaining then [e] else []
    {
      var kn :| kn in remaining;
      kn.groups := kn.groups + [e];
      remaining := remaining - {kn};
    }
  }

  /** The groups node j should end with: those of the neighbours that are joined to it. */
  function GroupsDue(ids: seq<int>, rows: seq<JoinRow>, neighbors: seq<Row>, j: nat): seq<Row>
    requires j < |ids|
  {
    if IsOwner(ids, j) then LinkedGroups(rows, ids[j], neighbors) else []
  }

  function GroupsOf(source: LinkSource, ids: seq<int>, j: nat): seq<Row>
    requires j < |ids|
  {
    GroupsDue(ids, GroupRows(source, ids), GroupsFetched(source, ids), j)
  }

  /** The neighbours the second pass appends to an account. */
  function AssignedTo(nids: map<int, set<Node>>, a: Node, neighbors: seq<Row>): seq<Row> {
    if neighbors == [] then []
    else
      var n := |neighbors| - 1;
      var g := neighbors[n];
      AssignedTo(nids, a, neighbors[..n]) + if g.id in nids && a in nids[g.id] then [g] else []
  }

  lemma {:induction false} AssignedIsDue(byID: map<int, Node>, nids: map<int, set<Node>>, nodes: seq<Node>,
                                         rows: seq<JoinRow>, neighbors: seq<Row>, j: nat)
    requires Separate(nodes) && MapsOwners(byID, nodes) && j < |nodes|
    requires forall row :: row in rows ==> row.account in byID
    requires forall gid :: gid in nids <==> Known(rows, gid)
    requires forall gid :: gid in nids ==> nids[gid] == PairedWith(byID, rows, gid)
    ensures AssignedTo(nids, nodes[j], neighbors) == GroupsDue(IDs(nodes), rows, neighbors, j)
    decreases |neighbors|
  {
    if neighbors != [] {
      var n := |neighbors| - 1;
      AssignedIsDue(byID, nids, nodes, rows, neighbors[..n], j);
      PairedIffLinked(byID, nodes, rows, neighbors[n].id, j);
      assert Linked(rows, nodes[j].id, neighbors[n].id) ==> Known(rows, neighbors[n].id);
    }
  }

  method AttachGroups(nodes: seq<Node>, nids: map<int, set<Node>>, neighbors: seq<Row>) returns (out: Outcome)
    requires forall gid, a :: gid in nids && a in nids[gid] ==> a in nodes
    requires forall j :: 0 <= j < |nodes| ==> nodes[j].groups == []
    modifies nodes`groups
    ensures out == StrayRow(gid => gid in nids, neighbors)
    ensures out == Loaded ==> forall j :: 0 <= j < |nodes| ==> nodes[j].groups == AssignedTo(nids, nodes[j], neighbors)
  {
    for i := 0 to |neighbors|
      invariant StrayRow(gid => gid in nids, neighbors) == StrayRow(gid => gid in nids, neighbors[i..])
      invariant forall j :: 0 <= j < |nodes| ==> nodes[j].groups == AssignedTo(nids, nodes[j], neighbors[..i])
    {
      var n := neighbors[i];
      if n.id !in nids {
        return Unexpected(n.id);
      }
      assert neighbors[..i + 1][..i] == neighbors[..i];
      AssignGroup(nodes, nids[n.id], n);
    }
    assert neighbors[..|neighbors|] == neighbors;
    return Loaded;
  }

  lemma {:induction false} PairedAreNodes(byID: map<int, Node>, nodes: seq<Node>, rows: seq<JoinRow>, gid: int)
    requires MapsOwners(byID, nodes)
    requires forall row :: row in rows ==> row.account in byID
    ensures forall a :: a in PairedWith(byID, rows, gid) ==> a in nodes
    decreases |rows|
  {
    if rows != [] {
      var n := |rows| - 1;
      assert rows == rows[..n] + [rows[n]];
      PairedAreNodes(byID, nodes, rows[..n], gid);
      OwnerInFinds(nodes, rows[n].account);
    }
  }

  function IsKnown(rows: seq<JoinRow>): int -> bool {
    gid => Known(rows, gid)
  }

  lemma {:induction false} SameStray(f: int -> bool, g: int -> bool, rows: seq<Row>)
    requires forall id :: f(id) <==> g(id)
    ensures StrayRow(f, rows) == StrayRow(g, rows)
  {
    if rows != [] {
      SameStray(f, g, rows[1..]);
    }
  }

  /** What loading the groups of these accounts ends with. */
  function GroupsOutcome(source: LinkSource, ids: seq<int>): Outcome {
    StrayRow(IsKnown(GroupRows(source, ids)), GroupsFetched(source, ids))
  }

  /** The groups edge, for any interceptors. */
  method LoadGroups(source: LinkSource, nodes: seq<Node>) returns (out: Outcome)
    requires Separate(nodes)
    modifies nodes`groups
    ensures out == GroupsOutcome(source, IDs(nodes))
    ensures out == Loaded ==> GroupsLoaded(nodes, source)
  {
    var edgeIDs, byID := IndexForGroups(nodes);
    var joined, columns := InRows(source.links, edgeIDs), GroupColumns(source);
    forall row | row in joined
      ensures row.account in byID
    {
      OwnerInFinds(nodes, row.account);
    }
    var firsts, nids := ScanJoin(byID, joined, columns);
    ghost var rows := ReadRows(joined, columns);
    var neighbors := source.intercept(firsts);
    forall gid, a | gid in nids && a in nids[gid]
      ensures a in nodes
    {
      PairedAreNodes(byID, nodes, rows, gid);
    }
    out := AttachGroups(nodes, nids, neighbors);
    SameStray(gid => gid in nids, IsKnown(rows), neighbors);
    forall j | 0 <= j < |nodes|
      ensures AssignedTo(nids, nodes[j], neighbors) == GroupsDue(IDs(nodes), rows, neighbors, j)
    {
      AssignedIsDue(byID, nids, nodes, rows, neighbors, j);
    }
  }

  // ------------------------------------------------------------------ the whole query

  /** Node j is the account of row j, with its requested edges not loaded yet. */
  ghost predicate IsNew(node: Node, row: Row, groups: bool, proxy: bool, usageLogs: bool) {
    && node.id == row.id && node.proxyID == row.key
    && node.loadedGroups == groups && node.loadedProxy == proxy && node.loadedUsageLogs == usageLogs
  }

  ghost predicate AreNew(nodes: seq<Node>, rows: seq<Row>, groups: bool, proxy: bool, usageLogs: bool) {
    |nodes| == |rows| && forall j :: 0 <= j < |nodes| ==> IsNew(nodes[j], rows[j], groups, proxy, usageLogs)
  }

  method NewNodes(rows: seq<Row>, groups: bool, proxy: bool, usageLogs: bool) returns (nodes: seq<Node>)
    ensures fresh(nodes) && Separate(nodes) && AreNew(nodes, rows, groups, proxy, usageLogs)
    ensures forall j :: 0 <= j < |nodes| ==>
              nodes[j].groups == [] && nodes[j].proxy == None && nodes[j].usageLogs == []
  {
    nodes := [];
    for i := 0 to |rows|
      invariant |nodes| == i && fresh(nodes) && Separate(nodes)
      invariant forall j :: 0 <= j < i ==>
                  IsNew(nodes[j], rows[j], groups, proxy, usageLogs) &&
                  nodes[j].groups == [] && nodes[j].proxy == None && nodes[j].usageLogs == []
    {
      var node := new Node(rows[i].id, rows[i].key, groups, proxy, usageLogs);
      nodes := nodes + [node];
    }
  }

  const PROXY_ID: string := "proxy_id"

  /** The rows of the account query itself; loading proxies needs their key. */
  function AccountsFetched(query: TableQuery, proxy: bool): seq<Row>
    reads query
  {
    Fetch(query.source, query.predicates, ParentColumns(query.source, query.fields, proxy))
  }

  function ParentColumns(s: Source, fields: seq<string>, proxy: bool): seq<string> {
    ColumnsFor(s.all, fields, if proxy then Some(PROXY_ID) else None)
  }

  /** A query, if its edge was requested. */
  function StateOf(query: TableQuery?): Option<QueryState>
    reads query
  {
    if query == null then None else Some(query.State())
  }

  function ProxiesAfter(q: Option<QueryState>, keys: seq<Option<int>>): Option<QueryState> {
    if q.None? then None else Some(AfterProxies(q.value, keys))
  }

  function LogsAfter(q: Option<QueryState>, ids: seq<int>): Option<QueryState> {
    if q.None? then None else Some(AfterLogs(q.value, ids))
  }

  /** The edges loaded by key, where requested, are those of the plain joins with what came back. */
  ghost predicate KeyedLoaded(nodes: seq<Node>, proxies: Option<QueryState>, logs: Option<QueryState>)
    reads nodes`proxy, nodes`usageLogs
  {
    && (proxies.Some? ==> ProxiesLoaded(nodes, ProxyRows(proxies.value, ProxyKeys(nodes))))
    && (logs.Some? ==> UsageLogsLoaded(nodes, LogRows(logs.value, IDs(nodes))))
  }

  /** What loading all requested edges ends with: it stops at the first one that fails. */
  function EdgesOutcome(ids: seq<int>, keys: seq<Option<int>>, groups: Option<LinkSource>,
                        proxies: Option<QueryState>, logs: Option<QueryState>): Outcome
  {
    Then(if groups.Some? then GroupsOutcome(groups.value, ids) else Loaded, KeyedOutcome(ids, keys, proxies, logs))
  }

  function KeyedOutcome(ids: seq<int>, keys: seq<Option<int>>, proxies: Option<QueryState>,
                        logs: Option<QueryState>): Outcome
  {
    Then(if proxies.Some? then ProxyOutcome(proxies.value, keys) else Loaded,
         if logs.Some? then StrayChild(ids, LogRows(logs.value, ids)) else Loaded)
  }

  function Then(first: Outcome, second: Outcome): Outcome {
    if first == Loaded then second else first
  }

  /** What running an account query with these rows ends with. */
  function QueryOutcome(rows: seq<Row>, groups: Option<LinkSource>, proxies: Option<QueryState>,
                        logs: Option<QueryState>): Outcome
  {
    if rows == [] then Loaded else EdgesOutcome(IdsOf(rows), KeysOf(rows), groups, proxies, logs)
  }

  /**
   Running an account query: nodes for its rows, then the requested edges. Each edge ends as the
   plain join with what its own query returned.
   */
  method SqlAll(query: TableQuery, withGroups: Option<LinkSource>, withProxy: TableQuery?, withUsageLogs: TableQuery?)
    returns (nodes: seq<Node>, out: Outcome)
    requires query != withProxy && query != withUsageLogs && (withProxy == withUsageLogs ==> withProxy == null)
    modifies (if withProxy == null then {} else {withProxy})`predicates
    modifies (if withUsageLogs == null then {} else {withUsageLogs})`predicates
    modifies (if withUsageLogs == null then {} else {withUsageLogs})`fields
    ensures fresh(nodes) && Separate(nodes)
    ensures AreNew(nodes, old(AccountsFetched(query, withProxy != null)),
                   withGroups.Some?, withProxy != null, withUsageLogs != null)
    ensures out == QueryOutcome(old(AccountsFetched(query, withProxy != null)), withGroups,
                                old(StateOf(withProxy)), old(StateOf(withUsageLogs)))
    ensures out == Loaded && withGroups.Some? ==> GroupsLoaded(nodes, withGroups.value)
    ensures out == Loaded ==> KeyedLoaded(nodes, old(StateOf(withProxy)), old(StateOf(withUsageLogs)))
    ensures out == Loaded && withProxy != null ==>
              ProxiesAnswered(nodes, ProxyRows(old(StateOf(withProxy)).value, ProxyKeys(nodes)))
    ensures out == Loaded && nodes != [] ==>
              && StateOf(withProxy) == ProxiesAfter(old(StateOf(withProxy)), ProxyKeys(nodes))
              && StateOf(withUsageLogs) == LogsAfter(old(StateOf(withUsageLogs)), IDs(nodes))
    ensures nodes == [] ==>
              StateOf(withProxy) == old(StateOf(withProxy)) && StateOf(withUsageLogs) == old(StateOf(withUsageLogs))
  {
    var rows := query.All(if withProxy != null then Some(PROXY_ID) else None);
    nodes := NewNodes(rows, withGroups.Some?, withProxy != null, withUsageLogs != null);
    out := FillEdges(rows, nodes, withGroups, withProxy, withUsageLogs);
  }

  /** The edges of freshly made nodes; without rows nothing is loaded. */
  method FillEdges(rows: seq<Row>, nodes: seq<Node>, withGroups: Option<LinkSource>,
                   withProxy: TableQuery?, withUsageLogs: TableQuery?)
    returns (out: Outcome)
    requires Separate(nodes) && (withProxy == withUsageLogs ==> withProxy == null)
    requires AreNew(nodes, rows, withGroups.Some?, withProxy != null, withUsageLogs != null)
    requires forall j :: 0 <= j < |nodes| ==> nodes[j].proxy == None
    modifies nodes`groups, nodes`proxy, nodes`usageLogs
    modifies (if withProxy == null then {} else {withProxy})`predicates
    modifies (if withUsageLogs == null then {} else {withUsageLogs})`predicates
    modifies (if withUsageLogs == null then {} else {withUsageLogs})`fields
    ensures out == QueryOutcome(rows, withGroups, old(StateOf(withProxy)), old(StateOf(withUsageLogs)))
    ensures out == Loaded && withGroups.Some? ==> GroupsLoaded(nodes, withGroups.value)
    ensures out == Loaded ==> KeyedLoaded(nodes, old(StateOf(withProxy)), old(StateOf(withUsageLogs)))
    ensures out == Loaded && withProxy != null ==>
              ProxiesAnswered(nodes, ProxyRows(old(StateOf(withProxy)).value, ProxyKeys(nodes)))
    ensures out == Loaded && nodes != [] ==>
              && StateOf(withProxy) == ProxiesAfter(old(StateOf(withProxy)), ProxyKeys(nodes))
              && StateOf(withUsageLogs) == LogsAfter(old(StateOf(withUsageLogs)), IDs(nodes))
    ensures nodes == [] ==>
              StateOf(withProxy) == old(StateOf(withProxy)) && StateOf(withUsageLogs) == old(StateOf(withUsageLogs))
  {
    if |nodes| == 0 {
      return Loaded;
    }
    assert IDs(nodes) == IdsOf(rows) && ProxyKeys(nodes) == KeysOf(rows);
    out := LoadEdges(nodes, withGroups, withProxy, withUsageLogs);
    if out == Loaded && withProxy != null {
      ProxyAnswerAfterLoading(nodes, ProxyRows(old(StateOf(withProxy)).value, ProxyKeys(nodes)));
    }
  }

  /** The requested edges of freshly made nodes, one loader after the other. */
  method LoadEdges(nodes: seq<Node>, withGroups: Option<LinkSource>, withProxy: TableQuery?, withUsageLogs: TableQuery?)
    returns (out: Outcome)
    requires Separate(nodes) && (withProxy == withUsageLogs ==> withProxy == null)
    requires forall j :: 0 <= j < |nodes| ==> nodes[j].proxy == None
    modifies nodes`groups, nodes`proxy, nodes`usageLogs
    modifies (if withProxy == null then {} else {withProxy})`predicates
    modifies (if withUsageLogs == null then {} else {withUsageLogs})`predicates
    modifies (if withUsageLogs == null then {} else {withUsageLogs})`fields
    ensures out == EdgesOutcome(IDs(nodes), ProxyKeys(nodes), withGroups,
                                old(StateOf(withProxy)), old(StateOf(withUsageLogs)))
    ensures out == Loaded && withGroups.Some? ==> GroupsLoaded(nodes, withGroups.value)
    ensures out == Loaded ==> KeyedLoaded(nodes, old(StateOf(withProxy)), old(StateOf(withUsageLogs)))
    ensures out == Loaded ==> StateOf(withProxy) == ProxiesAfter(old(StateOf(withProxy)), ProxyKeys(nodes))
    ensures out == Loaded ==> StateOf(withUsageLogs) == LogsAfter(old(StateOf(withUsageLogs)), IDs(nodes))
  {
    out := LoadGroupsIf(withGroups, nodes);
    if out == Loaded {
      out := LoadKeyed(nodes, withProxy, withUsageLogs);
    }
  }

  /** The two edges that are loaded by key. */
  method LoadKeyed(nodes: seq<Node>, withProxy: TableQuery?, withUsageLogs: TableQuery?) returns (out: Outcome)
    requires Separate(nodes) && (withProxy == withUsageLogs ==> withProxy == null)
    requires forall j :: 0 <= j < |nodes| ==> nodes[j].proxy == None
    modifies nodes`proxy, nodes`usageLogs
    modifies (if withProxy == null then {} else {withProxy})`predicates
    modifies (if withUsageLogs == null then {} else {withUsageLogs})`predicates
    modifies (if withUsageLogs == null then {} else {withUsageLogs})`fields
    ensures out == KeyedOutcome(IDs(nodes), ProxyKeys(nodes), old(StateOf(withProxy)), old(StateOf(withUsageLogs)))
    ensures out == Loaded ==> KeyedLoaded(nodes, old(StateOf(withProxy)), old(StateOf(withUsageLogs)))
    ensures out == Loaded ==> StateOf(withProxy) == ProxiesAfter(old(StateOf(withProxy)), ProxyKeys(nodes))
    ensures out == Loaded ==> StateOf(withUsageLogs) == LogsAfter(old(StateOf(withUsageLogs)), IDs(nodes))
  {
    out := LoadProxyIf(withProxy, nodes);
    if out == Loaded {
      out := LoadUsageLogsIf(withUsageLogs, nodes);
    }
  }

  /** Each loader, if its edge was requested. */
  method LoadGroupsIf(withGroups: Option<LinkSource>, nodes: seq<Node>) returns (out: Outcome)
    requires Separate(nodes)
    modifies nodes`groups
    ensures out == if withGroups.Some? then GroupsOutcome(withGroups.value, IDs(nodes)) else Loaded
    ensures out == Loaded && withGroups.Some? ==> GroupsLoaded(nodes, withGroups.value)
  {
    out := Loaded;
    if withGroups.Some? {
      out := LoadGroups(withGroups.value, nodes);
    }
  }

  method LoadProxyIf(withProxy: TableQuery?, nodes: seq<Node>) returns (out: Outcome)
    requires forall j :: 0 <= j < |nodes| ==> nodes[j].proxy == None
    modifies nodes`proxy
    modifies (if withProxy == null then {} else {withProxy})`predicates
    ensures withProxy == null ==> out == Loaded
    ensures withProxy != null ==>
              var q := old(StateOf(withProxy)).value;
              && withProxy.State() == AfterProxies(q, ProxyKeys(nodes))
              && out == ProxyOutcome(q, ProxyKeys(nodes))
              && (out == Loaded ==> ProxiesLoaded(nodes, ProxyRows(q, ProxyKeys(nodes))))
  {
    out := Loaded;
    if withProxy != null {
      out := LoadProxy(withProxy, nodes);
    }
  }

  method LoadUsageLogsIf(withUsageLogs: TableQuery?, nodes: seq<Node>) returns (out: Outcome)
    requires Separate(nodes)
    modifies nodes`usageLogs
    modifies (if withUsageLogs == null then {} else {withUsageLogs})`predicates
    modifies (if withUsageLogs == null then {} else {withUsageLogs})`fields
    ensures withUsageLogs == null ==> out == Loaded
    ensures withUsageLogs != null ==>
              var q := old(StateOf(withUsageLogs)).value;
              && withUsageLogs.State() == AfterLogs(q, IDs(nodes))
              && out == StrayChild(IDs(nodes), LogRows(q, IDs(nodes)))
              && (out == Loaded ==> UsageLogsLoaded(nodes, LogRows(q, IDs(nodes))))
  {
    out := Loaded;
    if withUsageLogs != null {
      out := LoadUsageLogs(withUsageLogs, nodes);
    }
  }

  /** Every account's groups are those of the plain join. */
  ghost predicate GroupsLoaded(nodes: seq<Node>, source: LinkSource)
    reads nodes`groups
  {
    forall j :: 0 <= j < |nodes| ==> nodes[j].groups == GroupsOf(source, IDs(nodes), j)
  }

  /**
   The answer to asking a node for its proxy: never "not loaded"; the row with the node's own key
   if the query returned one; "not found" exactly if the key is nil or no such row was returned.
   */
  ghost predicate ProxyAnswered(node: Node, found: seq<Row>)
    reads node`proxy
  {
    && !node.ProxyOrErr().NotLoaded?
    && (node.ProxyOrErr().Found? ==>
          node.ProxyOrErr().proxy in found && node.proxyID == Some(node.ProxyOrErr().proxy.id))
    && (node.ProxyOrErr().NotFound? <==>
          node.proxyID == None || forall row :: row in found ==> row.id != node.proxyID.value)
  }

  ghost predicate ProxiesAnswered(nodes: seq<Node>, rows: seq<Row>)
    reads nodes`proxy
  {
    forall j :: 0 <= j < |nodes| ==> ProxyAnswered(nodes[j], rows)
  }

  lemma ProxyAnswerAfterLoading(nodes: seq<Node>, rows: seq<Row>)
    requires ProxiesLoaded(nodes, rows) && forall j :: 0 <= j < |nodes| ==> nodes[j].loadedProxy
    ensures ProxiesAnswered(nodes, rows)
  {
    forall j | 0 <= j < |nodes|
      ensures ProxyAnswered(nodes[j], rows)
    {
      if nodes[j].proxyID.Some? {
        LastWithIdFinds(rows, nodes[j].proxyID.value);
      }
    }
  }
}
