/** What eager loading guarantees to its callers. */
module EagerTheorems {
  import opened Options
  import opened EdgeQuery
  import opened EagerJoin
  import opened EagerLoad

  /** No interceptor changes what the query returns. */
  ghost predicate Unintercepted(s: Source) {
    forall rows :: s.intercept(rows) == rows
  }

  // ------------------------------------------------------------------ the groups edge

  ghost predicate UninterceptedLinks(source: LinkSource) {
    forall rows :: source.intercept(rows) == rows
  }

  /** The IN filter keeps every row of a requested account. */
  lemma LinkedInRows(links: seq<JoinRow>, ids: seq<int>, aid: int, gid: int)
    requires aid in ids
    ensures Linked(InRows(links, ids), aid, gid) <==> Linked(links, aid, gid)
  {
    var rows := InRows(links, ids);
    if Linked(links, aid, gid) {
      var i :| 0 <= i < |links| && links[i].account == aid && links[i].group.id == gid;
      assert links[i] in rows;
      var k :| 0 <= k < |rows| && rows[k] == links[i];
    }
    if Linked(rows, aid, gid) {
      var i :| 0 <= i < |rows| && rows[i].account == aid && rows[i].group.id == gid;
      assert rows[i] in links;
      var k :| 0 <= k < |links| && links[k] == rows[i];
    }
  }

  /** The groups joined to an account, in order of first appearance, with all their columns. */
  function JoinedGroups(links: seq<JoinRow>, ids: seq<int>, aid: int): seq<Row> {
    LinkedGroups(InRows(links, ids), aid, FirstGroups(InRows(links, ids)))
  }

  /**
   With separate IDs, no interceptor and any selection of group columns, loading succeeds and each
   account ends with exactly its joined groups, each once and read through those columns.
   */
  lemma GroupsEdgeIsTheJoin(source: LinkSource, ids: seq<int>, j: nat)
    requires UninterceptedLinks(source) && Distinct(ids) && j < |ids|
    ensures GroupsOutcome(source, ids) == Loaded
    ensures GroupsOf(source, ids, j) == ReadGroups(JoinedGroups(source.links, ids, ids[j]), GroupColumns(source))
    ensures var gs := JoinedGroups(source.links, ids, ids[j]);
            && (forall gid :: (exists g :: g in gs && g.id == gid) <==> Linked(source.links, ids[j], gid))
            && DistinctRows(gs)
  {
    var rows, columns := InRows(source.links, ids), GroupColumns(source);
    DistinctAreOwners(ids);
    FirstGroupsKnown(GroupRows(source, ids));
    FirstGroupsRead(rows, columns);
    LinkedGroupsRead(rows, columns, ids[j], FirstGroups(rows));
    JoinedAreLinked(source.links, ids, j);
  }

  lemma JoinedAreLinked(links: seq<JoinRow>, ids: seq<int>, j: nat)
    requires j < |ids|
    ensures var gs := JoinedGroups(links, ids, ids[j]);
            && (forall gid :: (exists g :: g in gs && g.id == gid) <==> Linked(links, ids[j], gid))
            && DistinctRows(gs)
  {
    var rows := InRows(links, ids);
    GroupsAreTheJoin(rows, ids[j]);
    forall gid
      ensures Linked(rows, ids[j], gid) <==> Linked(links, ids[j], gid)
    {
      LinkedInRows(links, ids, ids[j], gid);
    }
  }

  // ------------------------------------------------------------------ reading fewer columns

  function Read(s: Source, rows: seq<Row>, columns: seq<string>): seq<Row> {
    ProjectAll(rows, columns, s.keyColumn, s.nullable)
  }

  /** With its key among the columns, reading fewer of them gives every parent the same children. */
  lemma {:induction false} ChildrenOfRead(s: Source, rows: seq<Row>, columns: seq<string>, key: int)
    requires s.keyColumn in columns
    ensures ChildrenOf(Read(s, rows, columns), key) == Read(s, ChildrenOf(rows, key), columns)
    decreases |rows|
  {
    if rows != [] {
      var n := |rows| - 1;
      ChildrenOfRead(s, rows[..n], columns, key);
      assert Read(s, rows, columns)[..n] == Read(s, rows[..n], columns);
    }
  }

  lemma AttachedRead(s: Source, ids: seq<int>, rows: seq<Row>, columns: seq<string>, j: nat)
    requires s.keyColumn in columns && j < |ids|
    ensures Attached(ids, Read(s, rows, columns), j) == Read(s, Attached(ids, rows, j), columns)
  {
    ChildrenOfRead(s, rows, columns, ids[j]);
  }

  /** With the ID among the columns, reading fewer of them finds the same row under every key. */
  lemma {:induction false} LastWithIdRead(s: Source, rows: seq<Row>, columns: seq<string>, id: int)
    requires ID in columns
    ensures LastWithId(Read(s, rows, columns), id) ==
            match LastWithId(rows, id)
            case None => None
            case Some(row) => Some(Project(row, columns, s.keyColumn, s.nullable))
    decreases |rows|
  {
    if rows != [] {
      var n := |rows| - 1;
      LastWithIdRead(s, rows[..n], columns, id);
      assert Read(s, rows, columns)[..n] == Read(s, rows[..n], columns);
    }
  }

  /** The columns a usage-log load reads include the ID and, re-added, the foreign key. */
  lemma EdgeColumnsHaveKeys(s: Source, fields: seq<string>)
    requires s.keyColumn in s.all
    ensures ID in EdgeColumns(s, fields) && s.keyColumn in EdgeColumns(s, fields)
  {
    SelectionKeepsKeys(s.all, if fields == [] then [] else Once(fields, s.keyColumn), None);
  }

  // ------------------------------------------------------------------ selections

  /** The key of a row found, if one was. */
  function FoundId(row: Option<Row>): Option<int> {
    if row.Some? then Some(row.value.id) else None
  }

  /** What the accounts' own selection does not change: which accounts there are, and their proxy keys. */
  lemma SelectionKeepsParents(s: Source, ps: seq<Pred>, fields: seq<string>, proxy: bool)
    requires Unintercepted(s)
    ensures var rows := Fetch(s, ps, ParentColumns(s, fields, proxy));
            && IdsOf(rows) == IdsOf(Matching(s.table, ps))
            && (proxy && s.keyColumn == PROXY_ID && PROXY_ID in s.all ==> KeysOf(rows) == KeysOf(Matching(s.table, ps)))
  {
    var columns := ParentColumns(s, fields, proxy);
    SelectionKeepsKeys(s.all, fields, if proxy then Some(PROXY_ID) else None);
    assert columns[0] in columns;
    ProjectKeepsIds(Matching(s.table, ps), columns, s.keyColumn, s.nullable);
  }

  /** For every selection on the sub-query, the children of a parent are the plain ones and none is stray. */
  lemma SelectionKeepsUsageLogs(q: QueryState, ids: seq<int>, j: nat)
    requires Unintercepted(q.source) && q.source.keyColumn in q.source.all && j < |ids|
    ensures var s := q.source;
            var children := Matching(s.table, q.predicates + [KeyIn(ids)]);
            && Attached(ids, LogRows(q, ids), j) == Read(s, Attached(ids, children, j), EdgeColumns(s, q.fields))
            && IdsOf(Attached(ids, LogRows(q, ids), j)) == IdsOf(Attached(ids, children, j))
            && StrayChild(ids, LogRows(q, ids)) == Loaded
  {
    var s := q.source;
    var children, columns := Matching(s.table, q.predicates + [KeyIn(ids)]), EdgeColumns(s, q.fields);
    EdgeColumnsHaveKeys(s, q.fields);
    AttachedRead(s, ids, children, columns, j);
    ProjectKeepsIds(Attached(ids, children, j), columns, s.keyColumn, s.nullable);
    FilteredChildrenHaveOwners(q, ids);
  }

  /** For every selection on the proxy query, each key finds the plain row and no row is unwanted. */
  lemma SelectionKeepsProxy(q: QueryState, keys: seq<Option<int>>, key: Option<int>)
    requires Unintercepted(q.source)
    ensures var proxies := Matching(q.source.table, q.predicates + ProxyFilter(keys));
            && FoundId(Target(ProxyRows(q, keys), key)) == FoundId(Target(proxies, key))
            && ProxyOutcome(q, keys) == Loaded
  {
    var s := q.source;
    var proxies, columns := Matching(s.table, q.predicates + ProxyFilter(keys)), ColumnsFor(s.all, q.fields, None);
    SelectionKeepsKeys(s.all, q.fields, None);
    assert columns[0] in columns;
    if key.Some? {
      LastWithIdRead(s, proxies, columns, key.value);
      LastWithIdFinds(proxies, key.value);
    }
    if FirstKeys(keys) != [] {
      FilteredProxiesAreWanted(q, keys);
    }
  }

  /** With the IN filter in place and the key read, no interceptor means no error. */
  lemma FilteredChildrenHaveOwners(q: QueryState, ids: seq<int>)
    requires Unintercepted(q.source) && q.source.keyColumn in q.source.all
    ensures forall c :: c in LogRows(q, ids) ==> HasOwner(ids, c)
  {
    var qs := q.predicates + [KeyIn(ids)];
    var rows := Matching(q.source.table, qs);
    EdgeColumnsHaveKeys(q.source, q.fields);
    MatchingHolds(q.source.table, qs);
    forall i | 0 <= i < |rows|
      ensures HasOwner(ids, rows[i])
    {
      assert rows[i] in rows;
      assert Holds(qs[|q.predicates|], rows[i]);
    }
  }

  /** The same for proxies: every proxy returned was asked for. */
  lemma FilteredProxiesAreWanted(q: QueryState, keys: seq<Option<int>>)
    requires Unintercepted(q.source) && FirstKeys(keys) != []
    ensures forall p :: p in ProxyRows(q, keys) ==> Some(p.id) in keys
  {
    var s := q.source;
    var qs := q.predicates + [IdIn(FirstKeys(keys))];
    var rows := Matching(s.table, qs);
    MatchingHolds(s.table, qs);
    FirstKeysAreDistinct(keys);
    SelectionKeepsKeys(s.all, q.fields, None);
    assert ColumnsFor(s.all, q.fields, None)[0] == ID;
    forall i | 0 <= i < |rows|
      ensures Some(rows[i].id) in keys
    {
      assert rows[i] in rows;
      assert Holds(qs[|q.predicates|], rows[i]);
    }
  }

  /** The plain usage logs of parent j, and the key of the plain proxy, from joins over all columns. */
  function PlainLogs(q: QueryState, ids: seq<int>, j: nat): seq<int>
    requires j < |ids|
  {
    IdsOf(Attached(ids, Matching(q.source.table, q.predicates + [KeyIn(ids)]), j))
  }

  function PlainProxy(q: QueryState, keys: seq<Option<int>>, key: Option<int>): Option<int> {
    FoundId(Target(Matching(q.source.table, q.predicates + ProxyFilter(keys)), key))
  }

  /** Node j is account j, and its proxy and usage logs are, by key, the plain ones. */
  ghost predicate PlainEdge(node: Node, plain: seq<Row>, proxies: QueryState, logs: QueryState, j: nat)
    requires j < |plain|
    reads node`proxy, node`usageLogs
  {
    && node.id == plain[j].id && node.proxyID == plain[j].key
    && FoundId(node.proxy) == PlainProxy(proxies, KeysOf(plain), plain[j].key)
    && IdsOf(node.usageLogs) == PlainLogs(logs, IdsOf(plain), j)
  }

  ghost predicate PlainEdges(nodes: seq<Node>, plain: seq<Row>, proxies: QueryState, logs: QueryState)
    reads nodes`proxy, nodes`usageLogs
  {
    |nodes| == |plain| && forall j :: 0 <= j < |nodes| ==> PlainEdge(nodes[j], plain, proxies, logs, j)
  }

  /**
   For all selections, on the accounts, on the proxies and on the usage logs: without interceptors
   a query succeeds and loads the edges of the plain joins, in which no selection occurs.
   */
  method LoadUnderSelections(query: TableQuery, withProxy: TableQuery, withUsageLogs: TableQuery)
    returns (nodes: seq<Node>, out: Outcome)
    requires query != withProxy && query != withUsageLogs && withProxy != withUsageLogs
    requires Unintercepted(query.source) && query.source.keyColumn == PROXY_ID && PROXY_ID in query.source.all
    requires Unintercepted(withProxy.source)
    requires Unintercepted(withUsageLogs.source) && withUsageLogs.source.keyColumn in withUsageLogs.source.all
    modifies withProxy`predicates, withUsageLogs`predicates, withUsageLogs`fields
    ensures out == Loaded && fresh(nodes)
    ensures var plain := Matching(query.source.table, query.predicates);
            && PlainEdges(nodes, plain, old(withProxy.State()), old(withUsageLogs.State()))
            && withProxy.State() == ProxiesServed(old(withProxy.State()), plain)
            && withUsageLogs.State() == LogsServed(old(withUsageLogs.State()), plain)
  {
    ghost var plain := Matching(query.source.table, query.predicates);
    ghost var rows := AccountsFetched(query, true);
    ghost var proxies, logs := withProxy.State(), withUsageLogs.State();
    SelectionKeepsParents(query.source, query.predicates, query.fields, true);
    nodes, out := SqlAll(query, None, withProxy, withUsageLogs);
    SelectionKeepsEdges(nodes, rows, plain, proxies, logs, out);
    BuildersServed(nodes, rows, plain, proxies, withProxy.State(), logs, withUsageLogs.State());
  }

  lemma BuildersServed(nodes: seq<Node>, rows: seq<Row>, plain: seq<Row>, proxies: QueryState, proxiesNow: QueryState,
                       logs: QueryState, logsNow: QueryState)
    requires AreNew(nodes, rows, false, true, true)
    requires IdsOf(rows) == IdsOf(plain) && KeysOf(rows) == KeysOf(plain)
    requires nodes != [] ==>
               proxiesNow == AfterProxies(proxies, ProxyKeys(nodes)) && logsNow == AfterLogs(logs, IDs(nodes))
    requires nodes == [] ==> proxiesNow == proxies && logsNow == logs
    ensures proxiesNow == ProxiesServed(proxies, plain) && logsNow == LogsServed(logs, plain)
  {
    assert |rows| == |IdsOf(rows)| == |plain|;
    assert IDs(nodes) == IdsOf(rows) && ProxyKeys(nodes) == KeysOf(rows);
  }

  /** What a run leaves of its sub-query builders; without accounts they are not run. */
  function ProxiesServed(q: QueryState, plain: seq<Row>): QueryState {
    if plain == [] then q else AfterProxies(q, KeysOf(plain))
  }

  function LogsServed(q: QueryState, plain: seq<Row>): QueryState {
    if plain == [] then q else AfterLogs(q, IdsOf(plain))
  }

  lemma SelectionKeepsEdges(nodes: seq<Node>, rows: seq<Row>, plain: seq<Row>,
                            proxies: QueryState, logs: QueryState, out: Outcome)
    requires AreNew(nodes, rows, false, true, true)
    requires IdsOf(rows) == IdsOf(plain) && KeysOf(rows) == KeysOf(plain)
    requires Unintercepted(proxies.source)
    requires Unintercepted(logs.source) && logs.source.keyColumn in logs.source.all
    requires out == QueryOutcome(rows, None, Some(proxies), Some(logs))
    requires out == Loaded ==> KeyedLoaded(nodes, Some(proxies), Some(logs))
    ensures out == Loaded && PlainEdges(nodes, plain, proxies, logs)
  {
    var ids, keys := IdsOf(plain), KeysOf(plain);
    assert |rows| == |plain|;
    assert IDs(nodes) == ids && ProxyKeys(nodes) == keys;
    if rows != [] {
      SelectionKeepsProxy(proxies, keys, None);
      SelectionKeepsUsageLogs(logs, ids, 0);
    }
    forall j | 0 <= j < |nodes|
      ensures PlainEdge(nodes[j], plain, proxies, logs, j)
    {
      assert ids[j] == IDs(nodes)[j] && keys[j] == ProxyKeys(nodes)[j];
      SelectionKeepsProxy(proxies, keys, plain[j].key);
      SelectionKeepsUsageLogs(logs, ids, j);
    }
  }

  // ------------------------------------------------------------------ running a builder again

  /** The predicates after loading for each of the given ID lists in turn. */
  function AfterRuns(ps: seq<Pred>, runs: seq<seq<int>>): seq<Pred> {
    if runs == [] then ps else AfterRuns(ps, runs[..|runs| - 1]) + [KeyIn(runs[|runs| - 1])]
  }

  predicate InAll(runs: seq<seq<int>>, id: int) {
    forall i :: 0 <= i < |runs| ==> id in runs[i]
  }

  lemma {:induction false} ChildrenOfSplit(a: seq<Row>, b: seq<Row>, key: int)
    ensures ChildrenOf(a + b, key) == ChildrenOf(a, key) + ChildrenOf(b, key)
    decreases |b|
  {
    if b == [] {
      assert a + b == a;
    } else {
      var n := |b| - 1;
      assert (a + b)[..|a + b| - 1] == a + b[..n];
      ChildrenOfSplit(a, b[..n], key);
    }
  }

  /** The first row of a table that satisfies the predicates is the first child of its parent. */
  lemma FirstChild(table: seq<Row>, ps: seq<Pred>, key: int)
    requires table != []
    ensures ChildrenOf(Matching(table, ps), key) ==
            (if HoldsAll(ps, table[0]) && table[0].key == Some(key) then [table[0]] else []) +
            ChildrenOf(Matching(table[1..], ps), key)
  {
    var head := if HoldsAll(ps, table[0]) then [table[0]] else [];
    ChildrenOfSplit(head, Matching(table[1..], ps), key);
    assert head != [] ==> head[..0] == [];
  }

  /** One more IN filter leaves a requested parent's children alone and hides all others. */
  lemma {:induction false} FilterHides(table: seq<Row>, ps: seq<Pred>, ids: seq<int>, key: int)
    ensures ChildrenOf(Matching(table, ps + [KeyIn(ids)]), key) ==
            if key in ids then ChildrenOf(Matching(table, ps), key) else []
    decreases |table|
  {
    if table != [] {
      FilterHides(table[1..], ps, ids, key);
      HoldsOneMore(ps, KeyIn(ids), table[0]);
      FirstChild(table, ps, key);
      FirstChild(table, ps + [KeyIn(ids)], key);
    }
  }

  lemma HoldsOneMore(ps: seq<Pred>, p: Pred, row: Row)
    ensures HoldsAll(ps + [p], row) <==> HoldsAll(ps, row) && Holds(p, row)
  {
    var qs := ps + [p];
    assert forall i :: 0 <= i < |ps| ==> qs[i] == ps[i];
    assert qs[|ps|] == p;
  }

  /** After k loads, a parent has its children if its ID was in all k requests, and otherwise none. */
  lemma {:induction false} RunAttachesIntersection(table: seq<Row>, ps: seq<Pred>, runs: seq<seq<int>>, key: int)
    ensures ChildrenOf(Matching(table, AfterRuns(ps, runs)), key) ==
            if InAll(runs, key) then ChildrenOf(Matching(table, ps), key) else []
    decreases |runs|
  {
    if runs != [] {
      var n := |runs| - 1;
      RunAttachesIntersection(table, ps, runs[..n], key);
      FilterHides(table, AfterRuns(ps, runs[..n]), runs[n], key);
      assert InAll(runs, key) <==> InAll(runs[..n], key) && key in runs[n];
    }
  }

  /** The children a parent has after those loads, read through the sub-query's columns. */
  function Intersected(q: QueryState, runs: seq<seq<int>>, ids: seq<int>, j: nat): seq<Row>
    requires j < |ids|
  {
    if IsOwner(ids, j) && InAll(runs, ids[j])
    then Read(q.source, ChildrenOf(Matching(q.source.table, q.predicates), ids[j]), EdgeColumns(q.source, q.fields))
    else []
  }

  /** A load on a builder that served the earlier runs attaches the intersection. */
  lemma AgainIsIntersection(q: QueryState, before: seq<seq<int>>, ids: seq<int>, j: nat)
    requires Unintercepted(q.source) && q.source.keyColumn in q.source.all && j < |ids|
    ensures Attached(ids, LogRows(q.(predicates := AfterRuns(q.predicates, before)), ids), j) ==
            Intersected(q, before + [ids], ids, j)
  {
    var s, runs := q.source, before + [ids];
    assert runs[..|before|] == before;
    EdgeColumnsHaveKeys(s, q.fields);
    AttachedRead(s, ids, Matching(s.table, AfterRuns(q.predicates, runs)), EdgeColumns(s, q.fields), j);
    RunAttachesIntersection(s.table, q.predicates, runs, ids[j]);
  }

  function RunIds(runs: seq<seq<Node>>): (r: seq<seq<int>>)
    ensures |r| == |runs|
    ensures forall i :: 0 <= i < |r| ==> r[i] == IDs(runs[i])
  {
    seq(|runs|, i requires 0 <= i < |runs| => IDs(runs[i]))
  }

  ghost predicate AttachesIntersection(q: QueryState, runs: seq<seq<Node>>, nodes: seq<Node>)
    reads nodes`usageLogs
  {
    forall j :: 0 <= j < |nodes| ==> nodes[j].usageLogs == Intersected(q, RunIds(runs), IDs(nodes), j)
  }

  ghost predicate Within(nodes: seq<Node>, all: set<Node>) {
    forall a :: a in nodes ==> a in all
  }

  /**
   Loading usage logs any number of times with one builder: every run succeeds, adds its filter,
   and attaches exactly the children whose key lies in the ID lists of all runs so far.
   */
  method LoadUsageLogsAgain(query: TableQuery, runs: seq<seq<Node>>, ghost all: set<Node>) returns (outs: seq<Outcome>)
    requires forall i :: 0 <= i < |runs| ==> Separate(runs[i]) && Within(runs[i], all)
    requires Unintercepted(query.source) && query.source.keyColumn in query.source.all
    modifies query`predicates, query`fields, all`usageLogs
    ensures |outs| == |runs| && forall i :: 0 <= i < |outs| ==> outs[i] == Loaded
    ensures query.predicates == AfterRuns(old(query.predicates), RunIds(runs))
    ensures runs != [] ==> AttachesIntersection(old(query.State()), runs, runs[|runs| - 1])
  {
    ghost var q := query.State();
    outs := [];
    for k := 0 to |runs|
      invariant |outs| == k && forall i :: 0 <= i < k ==> outs[i] == Loaded
      invariant query.predicates == AfterRuns(q.predicates, RunIds(runs[..k]))
      invariant EdgeColumns(q.source, query.fields) == EdgeColumns(q.source, q.fields)
      invariant k > 0 ==> AttachesIntersection(q, runs[..k], runs[k - 1])
    {
      var out := LoadUsageLogsOnce(query, q, runs, k, runs[k]);
      outs := outs + [out];
    }
    assert runs[..|runs|] == runs;
  }

  /** Run k of those. */
  method LoadUsageLogsOnce(query: TableQuery, ghost q: QueryState, ghost runs: seq<seq<Node>>, k: nat, nodes: seq<Node>)
    returns (out: Outcome)
    requires k < |runs| && runs[k] == nodes && Separate(nodes)
    requires query.source == q.source && Unintercepted(q.source) && q.source.keyColumn in q.source.all
    requires query.predicates == AfterRuns(q.predicates, RunIds(runs[..k]))
    requires EdgeColumns(q.source, query.fields) == EdgeColumns(q.source, q.fields)
    modifies query`predicates, query`fields, nodes`usageLogs
    ensures out == Loaded
    ensures query.predicates == AfterRuns(q.predicates, RunIds(runs[..k + 1]))
    ensures EdgeColumns(q.source, query.fields) == EdgeColumns(q.source, q.fields)
    ensures AttachesIntersection(q, runs[..k + 1], nodes)
  {
    ghost var before := RunIds(runs[..k]);
    ghost var now := query.State();
    out := LoadUsageLogs(query, nodes);
    RunIdsStep(runs, k);
    AfterOneMoreRun(q.predicates, before, IDs(nodes));
    AgainAttaches(q, now, before, nodes, out);
  }

  lemma RunIdsStep(runs: seq<seq<Node>>, k: nat)
    requires k < |runs|
    ensures RunIds(runs[..k + 1]) == RunIds(runs[..k]) + [IDs(runs[k])]
  {
  }

  lemma AfterOneMoreRun(ps: seq<Pred>, before: seq<seq<int>>, ids: seq<int>)
    ensures AfterRuns(ps, before + [ids]) == AfterRuns(ps, before) + [KeyIn(ids)]
  {
    assert (before + [ids])[..|before|] == before;
  }

  lemma AgainAttaches(q: QueryState, now: QueryState, before: seq<seq<int>>, nodes: seq<Node>, out: Outcome)
    requires Unintercepted(q.source) && q.source.keyColumn in q.source.all
    requires now.source == q.source && now.predicates == AfterRuns(q.predicates, before)
    requires EdgeColumns(q.source, now.fields) == EdgeColumns(q.source, q.fields)
    requires out == StrayChild(IDs(nodes), LogRows(now, IDs(nodes)))
    requires out == Loaded ==> UsageLogsLoaded(nodes, LogRows(now, IDs(nodes)))
    ensures out == Loaded
    ensures forall j :: 0 <= j < |nodes| ==> nodes[j].usageLogs == Intersected(q, before + [IDs(nodes)], IDs(nodes), j)
  {
    var ids := IDs(nodes);
    FilteredChildrenHaveOwners(now, ids);
    forall j | 0 <= j < |nodes|
      ensures nodes[j].usageLogs == Intersected(q, before + [ids], ids, j)
    {
      AgainIsIntersection(q, before, ids, j);
    }
  }

  /** Every owner gets from this run what a fresh builder would give it. */
  ghost predicate SameAsFresh(q: QueryState, before: seq<seq<int>>, ids: seq<int>) {
    forall j :: 0 <= j < |ids| ==> Intersected(q, before + [ids], ids, j) == Intersected(q, [ids], ids, j)
  }

  /**
   Loading again with the same builder gives every parent what a fresh builder gives it iff each
   parent that has children was among the requested IDs of all earlier loads.
   */
  lemma RerunIsFreshIff(q: QueryState, before: seq<seq<int>>, ids: seq<int>)
    ensures SameAsFresh(q, before, ids) <==>
            forall id :: id in ids && ChildrenOf(Matching(q.source.table, q.predicates), id) != [] ==> InAll(before, id)
  {
    forall id | id in ids
      ensures InAll(before + [ids], id) <==> InAll(before, id)
      ensures InAll([ids], id)
    {
      InAllAppend(before, ids, id);
    }
    if SameAsFresh(q, before, ids) {
      forall id | id in ids && ChildrenOf(Matching(q.source.table, q.predicates), id) != []
        ensures InAll(before, id)
      {
        var o := OwnerOf(ids, id);
        assert Intersected(q, before + [ids], ids, o) == Intersected(q, [ids], ids, o);
        assert Intersected(q, [ids], ids, o) != [];
      }
    }
  }

  lemma InAllAppend(before: seq<seq<int>>, ids: seq<int>, id: int)
    requires id in ids
    ensures InAll(before + [ids], id) <==> InAll(before, id)
    ensures InAll([ids], id)
  {
    var all := before + [ids];
    assert forall i :: 0 <= i < |before| ==> all[i] == before[i];
    assert all[|before|] == ids;
  }

  /** On an unchanged database, any number of loads for the same parents give the same edges. */
  lemma RepeatedLoadsAgree(q: QueryState, k: nat, ids: seq<int>)
    ensures SameAsFresh(q, seq(k, _ => ids), ids)
  {
    RerunIsFreshIff(q, seq(k, _ => ids), ids);
  }

  /** A parent the first load did not ask for gets none of its children from the second, though it has some. */
  lemma NewParentLosesChildren(q: QueryState, first: seq<int>, id: int)
    requires id !in first && ChildrenOf(Matching(q.source.table, q.predicates), id) != []
    ensures Intersected(q, [first, [id]], [id], 0) == [] && Intersected(q, [[id]], [id], 0) != []
  {
    assert [first, [id]][0] == first;
    assert IsOwner([id], 0) && InAll([[id]], id);
  }

  /** For instance the first of two parents asked for in turn keeps its child, the second does not. */
  lemma SecondParentLosesChild(s: Source)
    requires s.table == [Row(10, Some(1), map[]), Row(20, Some(2), map[])]
    ensures var q := QueryState(s, [], []);
            && |Intersected(q, [[1]], [1], 0)| == 1
            && |Intersected(q, [[2]], [2], 0)| == 1
            && Intersected(q, [[1], [2]], [2], 0) == []
  {
    var q := QueryState(s, [], []);
    OneChildEach(s.table);
    assert IsOwner([1], 0) && InAll([[1]], 1) && IsOwner([2], 0) && InAll([[2]], 2);
    NewParentLosesChildren(q, [1], 2);
  }

  lemma OneChildEach(table: seq<Row>)
    requires table == [Row(10, Some(1), map[]), Row(20, Some(2), map[])]
    ensures |ChildrenOf(Matching(table, []), 1)| == 1 && |ChildrenOf(Matching(table, []), 2)| == 1
  {
    forall key
      ensures ChildrenOf(Matching(table[1..], []), key) == if key == 2 then [table[1]] else []
    {
      FirstChild(table[1..], [], key);
      assert table[1..][1..] == [];
    }
    FirstChild(table, [], 1);
    FirstChild(table, [], 2);
  }

  // ------------------------------------------------------------------ the same for proxies

  /** The predicates of a proxy query after loading for each of the given key lists in turn. */
  function AfterProxyRuns(ps: seq<Pred>, runs: seq<seq<Option<int>>>): seq<Pred> {
    if runs == [] then ps else AfterProxyRuns(ps, runs[..|runs| - 1]) + ProxyFilter(runs[|runs| - 1])
  }

  /** The key was requested by every run that requested anything. */
  predicate InAllRequests(runs: seq<seq<Option<int>>>, id: int) {
    forall i :: 0 <= i < |runs| && FirstKeys(runs[i]) != [] ==> Some(id) in runs[i]
  }

  lemma {:induction false} LastWithIdSplit(a: seq<Row>, b: seq<Row>, id: int)
    ensures LastWithId(a + b, id) == if LastWithId(b, id).Some? then LastWithId(b, id) else LastWithId(a, id)
    decreases |b|
  {
    if b == [] {
      assert a + b == a;
    } else {
      var n := |b| - 1;
      assert (a + b)[..|a + b| - 1] == a + b[..n];
      LastWithIdSplit(a, b[..n], id);
    }
  }

  lemma FirstRow(table: seq<Row>, ps: seq<Pred>, id: int)
    requires table != []
    ensures var tail := LastWithId(Matching(table[1..], ps), id);
            LastWithId(Matching(table, ps), id) ==
            if tail.Some? then tail
            else if HoldsAll(ps, table[0]) && table[0].id == id then Some(table[0]) else None
  {
    var head := if HoldsAll(ps, table[0]) then [table[0]] else [];
    LastWithIdSplit(head, Matching(table[1..], ps), id);
    assert head != [] ==> head[..0] == [];
  }

  lemma {:induction false} IdFilterHides(table: seq<Row>, ps: seq<Pred>, ids: seq<int>, id: int)
    ensures LastWithId(Matching(table, ps + [IdIn(ids)]), id) ==
            if id in ids then LastWithId(Matching(table, ps), id) else None
    decreases |table|
  {
    if table != [] {
      IdFilterHides(table[1..], ps, ids, id);
      HoldsOneMore(ps, IdIn(ids), table[0]);
      FirstRow(table, ps, id);
      FirstRow(table, ps + [IdIn(ids)], id);
    }
  }

  /** After k proxy loads, a key finds its proxy iff it was in all k requests. */
  lemma {:induction false} ProxyRunsIntersect(table: seq<Row>, ps: seq<Pred>, runs: seq<seq<Option<int>>>, id: int)
    ensures LastWithId(Matching(table, AfterProxyRuns(ps, runs)), id) ==
            if InAllRequests(runs, id) then LastWithId(Matching(table, ps), id) else None
    decreases |runs|
  {
    if runs != [] {
      var n := |runs| - 1;
      ProxyRunsIntersect(table, ps, runs[..n], id);
      FirstKeysAreDistinct(runs[n]);
      if FirstKeys(runs[n]) != [] {
        IdFilterHides(table, AfterProxyRuns(ps, runs[..n]), FirstKeys(runs[n]), id);
      } else {
        assert AfterProxyRuns(ps, runs) == AfterProxyRuns(ps, runs[..n]);
      }
      LastRequest(runs, id);
    }
  }

  lemma LastRequest(runs: seq<seq<Option<int>>>, id: int)
    requires runs != []
    ensures var n := |runs| - 1;
            InAllRequests(runs, id) <==>
              InAllRequests(runs[..n], id) && (FirstKeys(runs[n]) != [] ==> Some(id) in runs[n])
  {
    var n := |runs| - 1;
    assert forall i :: 0 <= i < n ==> runs[..n][i] == runs[i];
  }

  /** The key of the proxy an account finds after those loads. */
  function IntersectedProxy(q: QueryState, runs: seq<seq<Option<int>>>, key: Option<int>): Option<int> {
    if key.Some? && InAllRequests(runs, key.value)
    then FoundId(LastWithId(Matching(q.source.table, q.predicates), key.value))
    else None
  }

  function RunKeys(runs: seq<seq<Node>>): (r: seq<seq<Option<int>>>)
    ensures |r| == |runs|
    ensures forall i :: 0 <= i < |r| ==> r[i] == ProxyKeys(runs[i])
  {
    seq(|runs|, i requires 0 <= i < |runs| => ProxyKeys(runs[i]))
  }

  ghost predicate FindsIntersection(q: QueryState, runs: seq<seq<Node>>, nodes: seq<Node>)
    reads nodes`proxy
  {
    forall j :: 0 <= j < |nodes| ==> FoundId(nodes[j].proxy) == IntersectedProxy(q, RunKeys(runs), nodes[j].proxyID)
  }

  /** The runs load different nodes. */
  ghost predicate DisjointRuns(runs: seq<seq<Node>>) {
    forall i, l, a :: 0 <= i < l < |runs| && a in runs[i] ==> a !in runs[l]
  }

  ghost predicate WithoutProxies(nodes: seq<Node>)
    reads nodes`proxy
  {
    forall j :: 0 <= j < |nodes| ==> nodes[j].proxy == None
  }

  /**
   Loading proxies any number of times with one builder: every run succeeds, adds its filter, and
   gives each account the proxy with its key iff all runs so far requested that key.
   */
  method LoadProxyAgain(query: TableQuery, runs: seq<seq<Node>>, ghost all: set<Node>) returns (outs: seq<Outcome>)
    requires DisjointRuns(runs) && Unintercepted(query.source)
    requires forall i :: 0 <= i < |runs| ==> WithoutProxies(runs[i]) && Within(runs[i], all)
    modifies query`predicates, all`proxy
    ensures |outs| == |runs| && forall i :: 0 <= i < |outs| ==> outs[i] == Loaded
    ensures query.predicates == AfterProxyRuns(old(query.predicates), RunKeys(runs))
    ensures runs != [] ==> FindsIntersection(old(query.State()), runs, runs[|runs| - 1])
  {
    ghost var q := query.State();
    outs := [];
    for k := 0 to |runs|
      invariant |outs| == k && forall i :: 0 <= i < k ==> outs[i] == Loaded
      invariant query.State() == q.(predicates := AfterProxyRuns(q.predicates, RunKeys(runs[..k])))
      invariant forall i :: k <= i < |runs| ==> WithoutProxies(runs[i])
      invariant k > 0 ==> FindsIntersection(q, runs[..k], runs[k - 1])
    {
      var out := LoadProxyOnce(query, q, runs, k, runs[k]);
      outs := outs + [out];
    }
    assert runs[..|runs|] == runs;
  }

  /** Run k of those. */
  method LoadProxyOnce(query: TableQuery, ghost q: QueryState, ghost runs: seq<seq<Node>>, k: nat, nodes: seq<Node>)
    returns (out: Outcome)
    requires k < |runs| && runs[k] == nodes && DisjointRuns(runs) && Unintercepted(query.source)
    requires query.State() == q.(predicates := AfterProxyRuns(q.predicates, RunKeys(runs[..k])))
    requires forall i :: k <= i < |runs| ==> WithoutProxies(runs[i])
    modifies query`predicates, nodes`proxy
    ensures out == Loaded
    ensures query.State() == q.(predicates := AfterProxyRuns(q.predicates, RunKeys(runs[..k + 1])))
    ensures forall i :: k < i < |runs| ==> WithoutProxies(runs[i])
    ensures FindsIntersection(q, runs[..k + 1], nodes)
  {
    ghost var before := RunKeys(runs[..k]);
    assert WithoutProxies(nodes);
    out := LoadProxy(query, nodes);
    assert RunKeys(runs[..k + 1])[..k] == before;
    assert RunKeys(runs[..k + 1]) == before + [ProxyKeys(nodes)];
    AgainFinds(q, before, nodes, out);
    forall i, j | k < i < |runs| && 0 <= j < |runs[i]|
      ensures runs[i][j].proxy == None
    {
      assert old(WithoutProxies(runs[i]));
      assert runs[i][j] in runs[i] && runs[i][j] !in nodes;
    }
  }

  lemma AgainFinds(q: QueryState, before: seq<seq<Option<int>>>, nodes: seq<Node>, out: Outcome)
    requires Unintercepted(q.source)
    requires var now, keys := q.(predicates := AfterProxyRuns(q.predicates, before)), ProxyKeys(nodes);
             && out == ProxyOutcome(now, keys)
             && (out == Loaded ==> ProxiesLoaded(nodes, ProxyRows(now, keys)))
    ensures out == Loaded
    ensures forall j :: 0 <= j < |nodes| ==>
              FoundId(nodes[j].proxy) == IntersectedProxy(q, before + [ProxyKeys(nodes)], nodes[j].proxyID)
  {
    var now, keys := q.(predicates := AfterProxyRuns(q.predicates, before)), ProxyKeys(nodes);
    var runs := before + [keys];
    assert runs[..|before|] == before;
    SelectionKeepsProxy(now, keys, None);
    forall j | 0 <= j < |nodes|
      ensures FoundId(nodes[j].proxy) == IntersectedProxy(q, runs, nodes[j].proxyID)
    {
      var key := nodes[j].proxyID;
      SelectionKeepsProxy(now, keys, key);
      if key.Some? {
        ProxyRunsIntersect(q.source.table, q.predicates, runs, key.value);
      }
    }
  }

  /** Every account finds from this run the proxy a fresh builder would give it. */
  ghost predicate SameProxiesAsFresh(q: QueryState, before: seq<seq<Option<int>>>, keys: seq<Option<int>>) {
    forall key :: key in keys ==> IntersectedProxy(q, before + [keys], key) == IntersectedProxy(q, [keys], key)
  }

  /**
   Loading proxies again with the same builder finds what a fresh builder finds iff each key that
   has a proxy was requested by all earlier loads that requested anything.
   */
  lemma ProxyRerunIsFreshIff(q: QueryState, before: seq<seq<Option<int>>>, keys: seq<Option<int>>)
    ensures SameProxiesAsFresh(q, before, keys) <==>
            forall id :: Some(id) in keys && FindsProxy(q, id) ==> InAllRequests(before, id)
  {
    forall id | Some(id) in keys
      ensures InAllRequests(before + [keys], id) <==> InAllRequests(before, id)
      ensures InAllRequests([keys], id)
    {
      RequestAgain(before, keys, id);
    }
    if SameProxiesAsFresh(q, before, keys) {
      forall id | Some(id) in keys && FindsProxy(q, id)
        ensures InAllRequests(before, id)
      {
        assert IntersectedProxy(q, before + [keys], Some(id)) == IntersectedProxy(q, [keys], Some(id));
      }
    }
  }

  predicate FindsProxy(q: QueryState, id: int) {
    LastWithId(Matching(q.source.table, q.predicates), id).Some?
  }

  lemma RequestAgain(before: seq<seq<Option<int>>>, keys: seq<Option<int>>, id: int)
    requires Some(id) in keys
    ensures InAllRequests(before + [keys], id) <==> InAllRequests(before, id)
    ensures InAllRequests([keys], id)
  {
    LastRequest(before + [keys], id);
    assert (before + [keys])[..|before|] == before;
  }

  /** On an unchanged database, any number of proxy loads for the same accounts find the same proxies. */
  lemma RepeatedProxyLoadsAgree(q: QueryState, k: nat, keys: seq<Option<int>>)
    ensures SameProxiesAsFresh(q, seq(k, _ => keys), keys)
  {
    ProxyRerunIsFreshIff(q, seq(k, _ => keys), keys);
  }

  // ------------------------------------------------------------------ running the whole query again

  /** A builder of a sub-query that has served some runs: it reads the same columns through more filters. */
  ghost predicate ServedLogs(q: QueryState, now: QueryState, runs: seq<seq<int>>) {
    && now.source == q.source && now.predicates == AfterRuns(q.predicates, runs)
    && EdgeColumns(q.source, now.fields) == EdgeColumns(q.source, q.fields)
  }

  ghost predicate ServedProxies(q: QueryState, now: QueryState, runs: seq<seq<Option<int>>>) {
    now == q.(predicates := AfterProxyRuns(q.predicates, runs))
  }

  /** Filtering for the same parents again leaves the plain usage logs as they were. */
  lemma SameRunsSameLogs(q: QueryState, now: QueryState, k: nat, ids: seq<int>, j: nat)
    requires j < |ids| && ServedLogs(q, now, seq(k, _ => ids))
    ensures PlainLogs(now, ids, j) == PlainLogs(q, ids, j)
  {
    var table, runs := q.source.table, seq(k, _ => ids);
    FilterHides(table, now.predicates, ids, ids[j]);
    FilterHides(table, q.predicates, ids, ids[j]);
    RunAttachesIntersection(table, q.predicates, runs, ids[j]);
    assert InAll(runs, ids[j]);
  }

  lemma SameRunsSameProxies(q: QueryState, now: QueryState, k: nat, keys: seq<Option<int>>, key: Option<int>)
    requires key in keys && ServedProxies(q, now, seq(k, _ => keys))
    ensures PlainProxy(now, keys, key) == PlainProxy(q, keys, key)
  {
    if key.Some? {
      var table, id, runs := q.source.table, key.value, seq(k, _ => keys);
      FirstKeysAreDistinct(keys);
      IdFilterHides(table, now.predicates, FirstKeys(keys), id);
      IdFilterHides(table, q.predicates, FirstKeys(keys), id);
      ProxyRunsIntersect(table, q.predicates, runs, id);
      assert InAllRequests(runs, id);
    }
  }

  lemma SameRunsSameEdges(nodes: seq<Node>, plain: seq<Row>, proxies: QueryState, proxiesNow: QueryState,
                          logs: QueryState, logsNow: QueryState, k: nat)
    requires ServedProxies(proxies, proxiesNow, seq(k, _ => KeysOf(plain)))
    requires ServedLogs(logs, logsNow, seq(k, _ => IdsOf(plain)))
    requires PlainEdges(nodes, plain, proxiesNow, logsNow)
    ensures PlainEdges(nodes, plain, proxies, logs)
  {
    var ids, keys := IdsOf(plain), KeysOf(plain);
    forall j | 0 <= j < |nodes|
      ensures PlainEdge(nodes[j], plain, proxies, logs, j)
    {
      assert PlainEdge(nodes[j], plain, proxiesNow, logsNow, j);
      SameRunsSameLogs(logs, logsNow, k, ids, j);
      assert keys[j] in keys;
      SameRunsSameProxies(proxies, proxiesNow, k, keys, keys[j]);
    }
  }

  /** The sub-query builders have served k runs for the same accounts, or none as there are none. */
  ghost predicate Served(plain: seq<Row>, proxies: QueryState, proxiesNow: QueryState,
                         logs: QueryState, logsNow: QueryState, k: nat)
  {
    if plain == [] then proxiesNow == proxies && logsNow == logs
    else
      && ServedProxies(proxies, proxiesNow, seq(k, _ => KeysOf(plain)))
      && ServedLogs(logs, logsNow, seq(k, _ => IdsOf(plain)))
  }

  lemma ServedOnceMore(plain: seq<Row>, proxies: QueryState, proxiesNow: QueryState,
                       logs: QueryState, logsNow: QueryState, k: nat)
    requires Served(plain, proxies, proxiesNow, logs, logsNow, k)
    ensures Served(plain, proxies, ProxiesServed(proxiesNow, plain), logs, LogsServed(logsNow, plain), k + 1)
  {
    var keys, ids := KeysOf(plain), IdsOf(plain);
    var keyRuns, idRuns := seq(k + 1, _ => keys), seq(k + 1, _ => ids);
    assert keyRuns[..k] == seq(k, _ => keys) && idRuns[..k] == seq(k, _ => ids);
  }

  /**
   Running the same account query any number of times on an unchanged database, with the same
   sub-query builders each time: every run succeeds and loads the edges of the first.
   */
  method QueryAgain(query: TableQuery, withProxy: TableQuery, withUsageLogs: TableQuery, times: nat)
    returns (results: seq<seq<Node>>)
    requires query != withProxy && query != withUsageLogs && withProxy != withUsageLogs
    requires Unintercepted(query.source) && query.source.keyColumn == PROXY_ID && PROXY_ID in query.source.all
    requires Unintercepted(withProxy.source)
    requires Unintercepted(withUsageLogs.source) && withUsageLogs.source.keyColumn in withUsageLogs.source.all
    modifies withProxy`predicates, withUsageLogs`predicates, withUsageLogs`fields
    ensures |results| == times
    ensures forall i :: 0 <= i < times ==>
              PlainEdges(results[i], Matching(query.source.table, query.predicates),
                         old(withProxy.State()), old(withUsageLogs.State()))
  {
    ghost var plain := Matching(query.source.table, query.predicates);
    ghost var proxies, logs := withProxy.State(), withUsageLogs.State();
    results := [];
    for k := 0 to times
      invariant |results| == k
      invariant forall i :: 0 <= i < k ==> PlainEdges(results[i], plain, proxies, logs)
      invariant Served(plain, proxies, withProxy.State(), logs, withUsageLogs.State(), k)
    {
      ghost var proxiesNow, logsNow := withProxy.State(), withUsageLogs.State();
      var nodes, _ := LoadUnderSelections(query, withProxy, withUsageLogs);
      ServedOnceMore(plain, proxies, proxiesNow, logs, logsNow, k);
      if plain != [] {
        SameRunsSameEdges(nodes, plain, proxies, proxiesNow, logs, logsNow, k);
      }
      results := results + [nodes];
    }
  }
}
