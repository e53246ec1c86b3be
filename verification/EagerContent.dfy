/**
 What the loaded rows hold, and where they come from: statements about stored tables only, without
 the projections and filters that the loaders themselves use.
 */
module EagerContent {
  import opened Options
  import opened EdgeQuery
  import opened EagerJoin
  import opened EagerLoad
  import opened EagerTheorems

  // ------------------------------------------------------------------ the content of rows

  /** A column is read for a selection: all of them without one, else the ID, those selected and one needed. */
  predicate IsRead(all: seq<string>, fields: seq<string>, needed: Option<string>, c: string) {
    if fields == [] then c in all else c == "id" || c in fields || needed == Some(c)
  }

  /** The loaded row is the stored one, as far as its columns are read. */
  ghost predicate Shows(loaded: Row, stored: Row, all: seq<string>, fields: seq<string>, needed: Option<string>) {
    && loaded.id == stored.id
    && (forall c :: c in loaded.data <==> c in stored.data && IsRead(all, fields, needed, c))
    && (forall c :: c in loaded.data ==> loaded.data[c] == stored.data[c])
  }

  ghost predicate ShowsAll(loaded: seq<Row>, stored: seq<Row>, all: seq<string>, fields: seq<string>,
                           needed: Option<string>)
  {
    |loaded| == |stored| && forall i :: 0 <= i < |loaded| ==> Shows(loaded[i], stored[i], all, fields, needed)
  }

  /** The foreign key of a loaded row: the stored one if its column is read, else the zero value. */
  predicate KeyShows(s: Source, loaded: Row, stored: Row, read: bool) {
    loaded.key == if read then stored.key else if s.nullable then None else Some(0)
  }

  lemma ProjectShows(row: Row, all: TableColumns, fields: seq<string>, needed: Option<string>,
                     keyColumn: string, nullable: bool)
    ensures Shows(Project(row, ColumnsFor(all, fields, needed), keyColumn, nullable), row, all, fields, needed)
  {
    SelectionKeepsKeys(all, fields, needed);
    assert ColumnsFor(all, fields, needed)[0] in ColumnsFor(all, fields, needed);
  }

  /** A row all of whose columns are read is loaded as it is stored. */
  lemma WholeRowShows(loaded: Row, stored: Row, all: seq<string>, needed: Option<string>)
    requires Shows(loaded, stored, all, [], needed) && forall c :: c in stored.data ==> c in all
    ensures loaded.id == stored.id && loaded.data == stored.data
  {
  }

  // ------------------------------------------------------------------ usage logs

  /** The columns read for usage logs are those selected and the foreign key. */
  lemma EdgeColumnsAre(s: Source, fields: seq<string>, c: string)
    requires s.keyColumn in s.all
    ensures c in EdgeColumns(s, fields) <==> IsRead(s.all, fields, Some(s.keyColumn), c)
  {
    SelectionKeepsKeys(s.all, if fields == [] then [] else Once(fields, s.keyColumn), None);
    if fields != [] {
      assert Once(fields, s.keyColumn) != [];
    }
  }

  /** For every selection each parent's usage logs are the stored children, as far as they are read, with their keys. */
  lemma LogsShow(q: QueryState, ids: seq<int>, j: nat)
    requires Unintercepted(q.source) && q.source.keyColumn in q.source.all && j < |ids|
    ensures var stored := Attached(ids, Matching(q.source.table, q.predicates + [KeyIn(ids)]), j);
            var loaded := Attached(ids, LogRows(q, ids), j);
            && ShowsAll(loaded, stored, q.source.all, q.fields, Some(q.source.keyColumn))
            && KeysOf(loaded) == KeysOf(stored)
  {
    var s := q.source;
    var columns := EdgeColumns(s, q.fields);
    SelectionKeepsUsageLogs(q, ids, j);
    EdgeColumnsHaveKeys(s, q.fields);
    forall c
      ensures c in columns <==> IsRead(s.all, q.fields, Some(s.keyColumn), c)
    {
      EdgeColumnsAre(s, q.fields, c);
    }
  }

  /** With nothing selected they are exactly the stored rows. */
  lemma LogsAreStored(q: QueryState, ids: seq<int>, j: nat)
    requires Unintercepted(q.source) && q.source.keyColumn in q.source.all && j < |ids| && q.fields == []
    requires forall row, c :: row in q.source.table && c in row.data ==> c in q.source.all
    ensures Attached(ids, LogRows(q, ids), j) ==
            Attached(ids, Matching(q.source.table, q.predicates + [KeyIn(ids)]), j)
  {
    var matching := Matching(q.source.table, q.predicates + [KeyIn(ids)]);
    var stored, loaded := Attached(ids, matching, j), Attached(ids, LogRows(q, ids), j);
    LogsShow(q, ids, j);
    MatchingHolds(q.source.table, q.predicates + [KeyIn(ids)]);
    ChildrenAreRows(matching, ids[j]);
    forall i | 0 <= i < |stored|
      ensures loaded[i] == stored[i]
    {
      assert stored[i] in stored && KeysOf(loaded)[i] == KeysOf(stored)[i];
      WholeRowShows(loaded[i], stored[i], q.source.all, Some(q.source.keyColumn));
    }
  }

  lemma {:induction false} ChildrenAreRows(rows: seq<Row>, key: int)
    ensures forall row :: row in ChildrenOf(rows, key) <==> row in rows && row.key == Some(key)
    decreases |rows|
  {
    if rows != [] {
      var n := |rows| - 1;
      assert rows == rows[..n] + [rows[n]];
      ChildrenAreRows(rows[..n], key);
    }
  }

  // ------------------------------------------------------------------ proxies

  ghost predicate OptionShows(s: Source, loaded: Option<Row>, stored: Option<Row>, fields: seq<string>) {
    && (loaded.Some? <==> stored.Some?)
    && (loaded.Some? ==>
          && Shows(loaded.value, stored.value, s.all, fields, None)
          && KeyShows(s, loaded.value, stored.value, IsRead(s.all, fields, None, s.keyColumn)))
  }

  /** For every selection the proxy found under a key is the stored one, as far as it is read. */
  lemma ProxyShows(q: QueryState, keys: seq<Option<int>>, key: Option<int>)
    requires Unintercepted(q.source)
    ensures OptionShows(q.source, Target(ProxyRows(q, keys), key),
                        Target(Matching(q.source.table, q.predicates + ProxyFilter(keys)), key), q.fields)
  {
    var s := q.source;
    var stored, columns := Matching(s.table, q.predicates + ProxyFilter(keys)), ColumnsFor(s.all, q.fields, None);
    SelectionKeepsKeys(s.all, q.fields, None);
    assert columns[0] in columns;
    if key.Some? {
      LastWithIdRead(s, stored, columns, key.value);
      if LastWithId(stored, key.value).Some? {
        ProjectShows(LastWithId(stored, key.value).value, s.all, q.fields, None, s.keyColumn, s.nullable);
      }
    }
  }

  /** With nothing selected it is exactly the stored row. */
  lemma ProxyIsStored(q: QueryState, keys: seq<Option<int>>, key: Option<int>)
    requires Unintercepted(q.source) && q.fields == []
    requires forall row, c :: row in q.source.table && c in row.data ==> c in q.source.all
    requires q.source.keyColumn in q.source.all ||
             (q.source.nullable && forall row :: row in q.source.table ==> row.key == None)
    ensures Target(ProxyRows(q, keys), key) == Target(Matching(q.source.table, q.predicates + ProxyFilter(keys)), key)
  {
    var stored := Matching(q.source.table, q.predicates + ProxyFilter(keys));
    ProxyShows(q, keys, key);
    MatchingHolds(q.source.table, q.predicates + ProxyFilter(keys));
    if key.Some? && LastWithId(stored, key.value).Some? {
      LastWithIdFinds(stored, key.value);
      WholeRowShows(Target(ProxyRows(q, keys), key).value, LastWithId(stored, key.value).value, q.source.all, None);
    }
  }

  // ------------------------------------------------------------------ groups

  /** For every selection the groups of an account are its joined groups, as far as they are read. */
  lemma GroupsShow(source: LinkSource, ids: seq<int>, j: nat)
    requires UninterceptedLinks(source) && Distinct(ids) && j < |ids|
    ensures ShowsAll(GroupsOf(source, ids, j), JoinedGroups(source.links, ids, ids[j]), source.all, source.fields, None)
  {
    var gs := JoinedGroups(source.links, ids, ids[j]);
    GroupsEdgeIsTheJoin(source, ids, j);
    forall i | 0 <= i < |gs|
      ensures Shows(GroupsOf(source, ids, j)[i], gs[i], source.all, source.fields, None)
    {
      ProjectShows(gs[i], source.all, source.fields, None, "", true);
    }
  }

  /** With nothing selected they are exactly the stored groups. */
  lemma GroupsAreStored(source: LinkSource, ids: seq<int>, j: nat)
    requires UninterceptedLinks(source) && Distinct(ids) && j < |ids| && source.fields == []
    requires forall i :: 0 <= i < |source.links| ==> source.links[i].group.key == None
    requires forall i, c :: 0 <= i < |source.links| && c in source.links[i].group.data ==> c in source.all
    ensures GroupsOf(source, ids, j) == JoinedGroups(source.links, ids, ids[j])
  {
    var loaded, gs := GroupsOf(source, ids, j), JoinedGroups(source.links, ids, ids[j]);
    GroupsShow(source, ids, j);
    GroupsEdgeIsTheJoin(source, ids, j);
    var places := JoinedInOrder(source.links, ids, ids[j]);
    forall i | 0 <= i < |gs|
      ensures loaded[i] == gs[i]
    {
      assert gs[i] == source.links[places[i]].group;
      WholeRowShows(loaded[i], gs[i], source.all, None);
    }
  }

  // ------------------------------------------------------------------ where rows come from

  /** The link row that brings in group g for these accounts: the first with that group. */
  ghost predicate BringsIn(links: seq<JoinRow>, ids: seq<int>, i: nat, g: Row) {
    && i < |links| && links[i].account in ids && links[i].group == g
    && forall k :: 0 <= k < i && links[k].account in ids ==> links[k].group.id != g.id
  }

  ghost predicate Increasing(places: seq<nat>) {
    forall i, j :: 0 <= i < j < |places| ==> places[i] < places[j]
  }

  /** The places of a list, given those in its tail. */
  function ConsPlaces(keep: bool, rest: seq<nat>): seq<nat> {
    (if keep then [0] else []) + seq(|rest|, k requires 0 <= k < |rest| => rest[k] + 1)
  }

  lemma ConsPlacesHas(keep: bool, rest: seq<nat>, i: nat)
    ensures i in ConsPlaces(keep, rest) <==> (i == 0 && keep) || (i > 0 && (i - 1) in rest)
  {
    var places, n := ConsPlaces(keep, rest), if keep then 1 else 0;
    if i in places {
      var k :| 0 <= k < |places| && places[k] == i;
      assert k >= n ==> rest[k - n] == i - 1;
    }
    if i == 0 && keep {
      assert places[0] == 0;
    }
    if i > 0 && (i - 1) in rest {
      var k :| 0 <= k < |rest| && rest[k] == i - 1;
      assert places[k + n] == i;
    }
  }

  /** Increasing places that hold the elements of another list. */
  ghost predicate Picks<T>(s: seq<T>, places: seq<nat>, r: seq<T>) {
    && |places| == |r| && Increasing(places)
    && forall k :: 0 <= k < |r| ==> places[k] < |s| && s[places[k]] == r[k]
  }

  lemma PicksCons<T>(s: seq<T>, keep: bool, rest: seq<nat>, r: seq<T>)
    requires s != [] && Picks(s[1..], rest, r)
    ensures Picks(s, ConsPlaces(keep, rest), (if keep then [s[0]] else []) + r)
  {
    assert forall k :: 0 <= k < |r| ==> s[rest[k] + 1] == s[1..][rest[k]];
  }

  /** The rows let through, with their places in the link table. */
  lemma {:induction false} InRowsPlaces(links: seq<JoinRow>, ids: seq<int>) returns (places: seq<nat>)
    ensures Picks(links, places, InRows(links, ids))
    ensures forall i :: 0 <= i < |links| && links[i].account in ids ==> i in places
  {
    if links == [] {
      places := [];
    } else {
      var rest := InRowsPlaces(links[1..], ids);
      places := ConsPlaces(links[0].account in ids, rest);
      PicksCons(links, links[0].account in ids, rest, InRows(links[1..], ids));
      forall i | 0 <= i < |links| && links[i].account in ids
        ensures i in places
      {
        ConsPlacesHas(links[0].account in ids, rest, i);
        assert i > 0 ==> links[1..][i - 1] == links[i];
      }
    }
  }

  /** Each group of a stream with the place of its first row. */
  lemma {:induction false} FirstGroupPlaces(rows: seq<JoinRow>) returns (places: seq<nat>)
    ensures |places| == |FirstGroups(rows)| && Increasing(places)
    ensures forall k :: 0 <= k < |places| ==> IsFirstRow(rows, places[k], FirstGroups(rows)[k])
    decreases |rows|
  {
    if rows == [] {
      places := [];
    } else {
      var n := |rows| - 1;
      var before := FirstGroupPlaces(rows[..n]);
      forall k | 0 <= k < |before|
        ensures IsFirstRow(rows, before[k], FirstGroups(rows[..n])[k])
      {
        assert IsFirstRow(rows[..n], before[k], FirstGroups(rows[..n])[k]);
        assert forall i :: 0 <= i < n ==> rows[..n][i] == rows[i];
      }
      if Known(rows[..n], rows[n].group.id) {
        places := before;
      } else {
        places := before + [n];
        assert forall i :: 0 <= i < n ==> rows[..n][i] == rows[i];
        assert IsFirstRow(rows, n, rows[n].group);
      }
    }
  }

  ghost predicate IsFirstRow(rows: seq<JoinRow>, i: nat, g: Row) {
    i < |rows| && rows[i].group == g && forall k :: 0 <= k < i ==> rows[k].group.id != g.id
  }

  /**
   An account's groups in terms of the link table: each is the group of the first link row that
   names it for one of the accounts asked for, and they come in the order of those rows.
   */
  lemma JoinedInOrder(links: seq<JoinRow>, ids: seq<int>, aid: int) returns (places: seq<nat>)
    ensures var gs := JoinedGroups(links, ids, aid);
            && |places| == |gs| && Increasing(places)
            && forall k :: 0 <= k < |gs| ==> BringsIn(links, ids, places[k], gs[k])
  {
    var rows := InRows(links, ids);
    var firsts, gs := FirstGroups(rows), JoinedGroups(links, ids, aid);
    var inLinks := InRowsPlaces(links, ids);
    var inRows := FirstGroupPlaces(rows);
    var inFirsts := GroupsKeepOrder(rows, aid, firsts);
    PlacesComposed(inRows, inFirsts);
    PlacesComposed(inLinks, Composed(inRows, inFirsts));
    places := Composed(inLinks, Composed(inRows, inFirsts));
    forall k | 0 <= k < |gs|
      ensures BringsIn(links, ids, places[k], gs[k])
    {
      GroupPlace(links, ids, rows, firsts, inLinks, inRows, inFirsts[k]);
    }
  }

  /** Places among places. */
  function Composed(outer: seq<nat>, inner: seq<nat>): (r: seq<nat>)
    requires forall k :: 0 <= k < |inner| ==> inner[k] < |outer|
    ensures |r| == |inner|
    ensures forall k :: 0 <= k < |r| ==> r[k] == outer[inner[k]]
  {
    seq(|inner|, k requires 0 <= k < |inner| => outer[inner[k]])
  }

  lemma PlacesComposed(outer: seq<nat>, inner: seq<nat>)
    requires Increasing(outer) && Increasing(inner) && forall k :: 0 <= k < |inner| ==> inner[k] < |outer|
    ensures Increasing(Composed(outer, inner))
  {
  }

  lemma GroupPlace(links: seq<JoinRow>, ids: seq<int>, rows: seq<JoinRow>, firsts: seq<Row>,
                   inLinks: seq<nat>, inRows: seq<nat>, k: nat)
    requires rows == InRows(links, ids) && Picks(links, inLinks, rows)
    requires forall i :: 0 <= i < |links| && links[i].account in ids ==> i in inLinks
    requires k < |firsts| == |inRows| && IsFirstRow(rows, inRows[k], firsts[k])
    ensures BringsIn(links, ids, inLinks[inRows[k]], firsts[k])
  {
    assert rows[inRows[k]] in rows;
    FirstInLinks(links, ids, rows, inLinks, inRows[k], firsts[k]);
  }

  lemma FirstInLinks(links: seq<JoinRow>, ids: seq<int>, rows: seq<JoinRow>, inLinks: seq<nat>, f: nat, g: Row)
    requires Picks(links, inLinks, rows)
    requires forall i :: 0 <= i < |links| && links[i].account in ids ==> i in inLinks
    requires IsFirstRow(rows, f, g) && rows[f].account in ids
    ensures BringsIn(links, ids, inLinks[f], g)
  {
    forall k | 0 <= k < inLinks[f] && links[k].account in ids
      ensures links[k].group.id != g.id
    {
      var r :| 0 <= r < |inLinks| && inLinks[r] == k;
      LaterPlace(inLinks, f, r);
      assert rows[r] == links[k];
    }
  }

  /** One more element at the end of a list of places. */
  lemma PicksSnoc<T>(s: seq<T>, keep: bool, places: seq<nat>, r: seq<T>)
    requires s != [] && Picks(s[..|s| - 1], places, r)
    ensures Picks(s, places + (if keep then [|s| - 1] else []), r + (if keep then [s[|s| - 1]] else []))
  {
    assert forall k :: 0 <= k < |r| ==> s[places[k]] == s[..|s| - 1][places[k]];
  }

  /** A parent's children are all rows with its key, in the order of the rows and as often as they occur. */
  lemma {:induction false} ChildrenInOrder(rows: seq<Row>, key: int) returns (places: seq<nat>)
    ensures Picks(rows, places, ChildrenOf(rows, key))
    ensures forall i :: 0 <= i < |rows| ==> (i in places <==> rows[i].key == Some(key))
    decreases |rows|
  {
    if rows == [] {
      places := [];
    } else {
      var n := |rows| - 1;
      var keep := rows[n].key == Some(key);
      var before := ChildrenInOrder(rows[..n], key);
      PicksSnoc(rows, keep, before, ChildrenOf(rows[..n], key));
      places := before + if keep then [n] else [];
      assert forall i :: 0 <= i < n ==> rows[..n][i] == rows[i];
      assert forall i :: i in before ==> i < n by {
        forall i | i in before
          ensures i < n
        {
          var k :| 0 <= k < |before| && before[k] == i;
        }
      }
    }
  }

  /** The account that comes first with a key. */
  ghost predicate IsFirstKey(keys: seq<Option<int>>, i: nat, key: int) {
    i < |keys| && keys[i] == Some(key) && forall k :: 0 <= k < i ==> keys[k] != Some(key)
  }

  lemma KeyIsAsked(keys: seq<Option<int>>, key: int)
    ensures key in FirstKeys(keys) <==> Some(key) in keys
  {
    FirstKeysAreDistinct(keys);
  }

  lemma FirstStaysFirst(keys: seq<Option<int>>, i: nat, key: int)
    requires keys != [] && IsFirstKey(keys[..|keys| - 1], i, key)
    ensures i < |keys| - 1 && IsFirstKey(keys, i, key)
  {
    assert forall k :: 0 <= k < |keys| - 1 ==> keys[..|keys| - 1][k] == keys[k];
  }

  /** The keys are asked for in the order in which they first appear. */
  lemma {:induction false} FirstKeysInOrder(keys: seq<Option<int>>) returns (places: seq<nat>)
    ensures |places| == |FirstKeys(keys)| && Increasing(places)
    ensures forall k :: 0 <= k < |places| ==> IsFirstKey(keys, places[k], FirstKeys(keys)[k])
    decreases |keys|
  {
    if keys == [] {
      places := [];
    } else {
      var n := |keys| - 1;
      var rest, first := keys[..n], FirstKeys(keys[..n]);
      var before := FirstKeysInOrder(rest);
      FirstKeysAreDistinct(rest);
      assert forall i :: 0 <= i < n ==> rest[i] == keys[i];
      forall k | 0 <= k < |before|
        ensures before[k] < n && IsFirstKey(keys, before[k], first[k])
      {
        FirstStaysFirst(keys, before[k], first[k]);
      }
      if keys[n].Some? && keys[n].value !in first {
        KeyIsAsked(rest, keys[n].value);
        assert keys[n] == Some(keys[n].value);
        forall k | 0 <= k < n
          ensures keys[k] != keys[n]
        {
          assert rest[k] in rest;
        }
        assert IsFirstKey(keys, n, keys[n].value);
        places := before + [n];
      } else {
        places := before;
      }
    }
  }

  /** The row found under a key is the last one with that ID. */
  lemma {:induction false} FoundIsLast(rows: seq<Row>, id: int, i: nat)
    requires i < |rows| && rows[i].id == id && forall k :: i < k < |rows| ==> rows[k].id != id
    ensures LastWithId(rows, id) == Some(rows[i])
    decreases |rows|
  {
    var n := |rows| - 1;
    if i < n {
      assert forall k :: 0 <= k < n ==> rows[..n][k] == rows[k];
      FoundIsLast(rows[..n], id, i);
    }
  }

  lemma LaterPlace(places: seq<nat>, i: nat, j: nat)
    requires Increasing(places) && i < |places| && j < |places|
    ensures places[j] < places[i] ==> j < i
  {
  }

  /** What a predicate asks of a row. */
  predicate Asks(p: Pred, row: Row) {
    match p
    case KeyIn(ids) => exists id :: id in ids && row.key == Some(id)
    case IdIn(ids) => row.id in ids
    case Custom(holds) => holds(row)
  }

  lemma AsksIsHolds(p: Pred, row: Row)
    ensures Holds(p, row) <==> Asks(p, row)
  {
    if p.KeyIn? && row.key.Some? && row.key.value in p.ids {
      var id := row.key.value;
      assert id in p.ids && row.key == Some(id);
    }
  }

  ghost predicate AllAsk(ps: seq<Pred>, row: Row) {
    forall k :: 0 <= k < |ps| ==> Asks(ps[k], row)
  }

  lemma AllAskIsHoldsAll(ps: seq<Pred>, row: Row)
    ensures HoldsAll(ps, row) <==> AllAsk(ps, row)
  {
    forall k | 0 <= k < |ps|
      ensures Holds(ps[k], row) <==> Asks(ps[k], row)
    {
      AsksIsHolds(ps[k], row);
    }
  }

  /** The rows found are those every predicate is met by, in table order, each as often as it is stored. */
  lemma {:induction false} FoundInOrder(table: seq<Row>, ps: seq<Pred>) returns (places: seq<nat>)
    ensures Picks(table, places, Matching(table, ps))
    ensures forall i :: 0 <= i < |table| ==> (i in places <==> AllAsk(ps, table[i]))
  {
    if table == [] {
      places := [];
    } else {
      var keep := HoldsAll(ps, table[0]);
      var rest := FoundInOrder(table[1..], ps);
      places := ConsPlaces(keep, rest);
      PicksCons(table, keep, rest, Matching(table[1..], ps));
      AllAskIsHoldsAll(ps, table[0]);
      forall i | 0 <= i < |table|
        ensures i in places <==> AllAsk(ps, table[i])
      {
        ConsPlacesHas(keep, rest, i);
        assert i > 0 ==> table[1..][i - 1] == table[i];
      }
    }
  }
}
