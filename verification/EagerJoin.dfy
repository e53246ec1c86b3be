/**
 What eager loading should attach: the plain joins, without the maps the loaders keep. Parents are
 given by the list of their IDs; when an ID occurs more than once, only its last holder owns it.
 */
module EagerJoin {
  import opened Options
  import opened EdgeQuery

  /** One row of the many-to-many join: the account's ID and the group. */
  datatype JoinRow = JoinRow(account: int, group: Row)

  predicate IsOwner(ids: seq<int>, j: nat) {
    j < |ids| && forall l :: j < l < |ids| ==> ids[l] != ids[j]
  }

  predicate Distinct(ids: seq<int>) {
    forall i, j :: 0 <= i < j < |ids| ==> ids[i] != ids[j]
  }

  lemma DistinctAreOwners(ids: seq<int>)
    requires Distinct(ids)
    ensures forall j :: 0 <= j < |ids| ==> IsOwner(ids, j)
  {
  }

  // ------------------------------------------------------------------ many-to-many

  predicate Known(rows: seq<JoinRow>, gid: int) {
    exists i :: 0 <= i < |rows| && rows[i].group.id == gid
  }

  predicate Linked(rows: seq<JoinRow>, aid: int, gid: int) {
    exists i :: 0 <= i < |rows| && rows[i].account == aid && rows[i].group.id == gid
  }

  /** The groups of a row stream, each at its first appearance. */
  function FirstGroups(rows: seq<JoinRow>): seq<Row> {
    if rows == [] then []
    else
      var n := |rows| - 1;
      FirstGroups(rows[..n]) + if Known(rows[..n], rows[n].group.id) then [] else [rows[n].group]
  }

  /** Those of the given groups that are joined to the account, in the given order. */
  function LinkedGroups(rows: seq<JoinRow>, aid: int, gs: seq<Row>): seq<Row> {
    if gs == [] then []
    else
      var n := |gs| - 1;
      LinkedGroups(rows, aid, gs[..n]) + if Linked(rows, aid, gs[n].id) then [gs[n]] else []
  }

  /** The rows an IN filter on the account key lets through. */
  function InRows(links: seq<JoinRow>, ids: seq<int>): (r: seq<JoinRow>)
    ensures forall row :: row in r <==> row in links && row.account in ids
  {
    if links == [] then []
    else (if links[0].account in ids then [links[0]] else []) + InRows(links[1..], ids)
  }

  lemma {:induction false} FirstGroupsKnown(rows: seq<JoinRow>)
    ensures forall g :: g in FirstGroups(rows) ==> Known(rows, g.id)
    ensures forall gid :: Known(rows, gid) ==> exists g :: g in FirstGroups(rows) && g.id == gid
    ensures DistinctRows(FirstGroups(rows))
    decreases |rows|
  {
    if rows != [] {
      var n := |rows| - 1;
      var rest, last := rows[..n], rows[n];
      FirstGroupsKnown(rest);
      var before, after := FirstGroups(rest), FirstGroups(rows);
      assert forall gid :: Known(rows, gid) <==> Known(rest, gid) || gid == last.group.id by {
        forall gid
          ensures Known(rows, gid) <==> Known(rest, gid) || gid == last.group.id
        {
          KnownGrows(rows, gid);
        }
      }
      assert forall g :: g in after <==> g in before || (g == last.group && !Known(rest, last.group.id));
    }
  }

  lemma KnownGrows(rows: seq<JoinRow>, gid: int)
    requires rows != []
    ensures Known(rows, gid) <==> Known(rows[..|rows| - 1], gid) || gid == rows[|rows| - 1].group.id
  {
    var n := |rows| - 1;
    if Known(rows[..n], gid) {
      var i :| 0 <= i < n && rows[..n][i].group.id == gid;
      assert rows[i].group.id == gid;
    }
    if Known(rows, gid) {
      var i :| 0 <= i < |rows| && rows[i].group.id == gid;
      assert i < n ==> rows[..n][i].group.id == gid;
    }
  }

  /**
   The groups an account ends with are exactly those joined to it, each once however often the
   join rows repeat.
   */
  lemma GroupsAreTheJoin(rows: seq<JoinRow>, aid: int)
    ensures var gs := LinkedGroups(rows, aid, FirstGroups(rows));
            && (forall gid :: (exists g :: g in gs && g.id == gid) <==> Linked(rows, aid, gid))
            && DistinctRows(gs)
  {
    var firsts := FirstGroups(rows);
    var gs := LinkedGroups(rows, aid, firsts);
    FirstGroupsKnown(rows);
    LinkedGroupsMembers(rows, aid, firsts);
    forall gid | Linked(rows, aid, gid)
      ensures exists g :: g in gs && g.id == gid
    {
      assert Known(rows, gid);
    }
    LinkedGroupsDistinct(rows, aid, firsts);
  }

  lemma {:induction false} LinkedGroupsMembers(rows: seq<JoinRow>, aid: int, gs: seq<Row>)
    ensures forall g :: g in LinkedGroups(rows, aid, gs) <==> g in gs && Linked(rows, aid, g.id)
    decreases |gs|
  {
    if gs != [] {
      LinkedGroupsMembers(rows, aid, gs[..|gs| - 1]);
      assert gs == gs[..|gs| - 1] + [gs[|gs| - 1]];
    }
  }

  predicate DistinctRows(gs: seq<Row>) {
    forall i, j :: 0 <= i < j < |gs| ==> gs[i].id != gs[j].id
  }

  lemma {:induction false} LinkedGroupsDistinct(rows: seq<JoinRow>, aid: int, gs: seq<Row>)
    requires DistinctRows(gs)
    ensures DistinctRows(LinkedGroups(rows, aid, gs))
    decreases |gs|
  {
    if gs != [] {
      var n := |gs| - 1;
      LinkedGroupsDistinct(rows, aid, gs[..n]);
      LinkedGroupsMembers(rows, aid, gs[..n]);
      var r := LinkedGroups(rows, aid, gs[..n]);
      forall i | 0 <= i < |r|
        ensures r[i].id != gs[n].id
      {
        assert r[i] in r;
        var k :| 0 <= k < n && gs[..n][k] == r[i];
        assert gs[k] == r[i];
      }
    }
  }

  /** Increasing places in one list that hold the elements of another. */
  ghost predicate SubsequenceAt(part: seq<Row>, whole: seq<Row>, places: seq<nat>) {
    && |places| == |part|
    && (forall i :: 0 <= i < |places| ==> places[i] < |whole| && whole[places[i]] == part[i])
    && (forall i, j :: 0 <= i < j < |places| ==> places[i] < places[j])
  }

  /** A longer whole keeps the places; its new last element may be taken as well. */
  lemma SubsequenceGrows(part: seq<Row>, whole: seq<Row>, places: seq<nat>)
    requires whole != [] && SubsequenceAt(part, whole[..|whole| - 1], places)
    ensures SubsequenceAt(part, whole, places)
    ensures SubsequenceAt(part + [whole[|whole| - 1]], whole, places + [|whole| - 1])
  {
    var n := |whole| - 1;
    forall i | 0 <= i < |places|
      ensures places[i] < n && whole[places[i]] == part[i]
    {
      assert whole[..n][places[i]] == whole[places[i]];
    }
  }

  /** An account's groups keep the order in which the groups first appear in the row stream. */
  lemma {:induction false} GroupsKeepOrder(rows: seq<JoinRow>, aid: int, gs: seq<Row>) returns (places: seq<nat>)
    ensures SubsequenceAt(LinkedGroups(rows, aid, gs), gs, places)
    decreases |gs|
  {
    if gs == [] {
      places := [];
    } else {
      var n := |gs| - 1;
      var before := GroupsKeepOrder(rows, aid, gs[..n]);
      SubsequenceGrows(LinkedGroups(rows, aid, gs[..n]), gs, before);
      places := if Linked(rows, aid, gs[n].id) then before + [n] else before;
    }
  }

  ghost predicate SortedRows(rows: seq<JoinRow>, rank: Row -> int) {
    forall i, j :: 0 <= i < j < |rows| ==> rank(rows[i].group) <= rank(rows[j].group)
  }

  ghost predicate SortedGroups(gs: seq<Row>, rank: Row -> int) {
    forall i, j :: 0 <= i < j < |gs| ==> rank(gs[i]) <= rank(gs[j])
  }

  lemma {:induction false} FirstGroupsSorted(rows: seq<JoinRow>, rank: Row -> int)
    requires SortedRows(rows, rank)
    ensures SortedGroups(FirstGroups(rows), rank)
    ensures forall g :: g in FirstGroups(rows) ==> exists i :: 0 <= i < |rows| && rows[i].group == g
    decreases |rows|
  {
    if rows != [] {
      var n := |rows| - 1;
      FirstGroupsSorted(rows[..n], rank);
      var before := FirstGroups(rows[..n]);
      forall g | g in FirstGroups(rows)
        ensures exists i :: 0 <= i < |rows| && rows[i].group == g
      {
        if g in before {
          var i :| 0 <= i < n && rows[..n][i].group == g;
          assert rows[i].group == g;
        }
      }
      forall i | 0 <= i < |before|
        ensures rank(before[i]) <= rank(rows[n].group)
      {
        assert before[i] in before;
        var k :| 0 <= k < n && rows[..n][k].group == before[i];
        assert rows[k].group == before[i];
      }
    }
  }

  /** If the rows are sorted by a rank of the group alone, so is every account's list. */
  lemma SortedRowsGiveSortedGroups(rows: seq<JoinRow>, aid: int, rank: Row -> int)
    requires SortedRows(rows, rank)
    ensures SortedGroups(LinkedGroups(rows, aid, FirstGroups(rows)), rank)
  {
    FirstGroupsSorted(rows, rank);
    var places := GroupsKeepOrder(rows, aid, FirstGroups(rows));
  }

  /** What a row of the joined query looks like when only some columns of the group are read. */
  function ReadJoin(row: JoinRow, columns: seq<string>): JoinRow {
    JoinRow(row.account, ReadGroup(row.group, columns))
  }

  function ReadGroup(group: Row, columns: seq<string>): Row {
    Project(group, columns, "", true)
  }

  function ReadRows(rows: seq<JoinRow>, columns: seq<string>): (r: seq<JoinRow>)
    ensures |r| == |rows|
    ensures forall i :: 0 <= i < |r| ==> r[i] == ReadJoin(rows[i], columns)
  {
    seq(|rows|, i requires 0 <= i < |rows| => ReadJoin(rows[i], columns))
  }

  function ReadGroups(gs: seq<Row>, columns: seq<string>): (r: seq<Row>)
    ensures |r| == |gs|
    ensures forall i :: 0 <= i < |r| ==> r[i] == ReadGroup(gs[i], columns)
  {
    seq(|gs|, i requires 0 <= i < |gs| => ReadGroup(gs[i], columns))
  }

  /** With the ID among the columns, reading fewer of them joins the same accounts and groups. */
  lemma ReadRowsKeepLinks(rows: seq<JoinRow>, columns: seq<string>, aid: int, gid: int)
    requires ID in columns
    ensures Linked(ReadRows(rows, columns), aid, gid) <==> Linked(rows, aid, gid)
    ensures Known(ReadRows(rows, columns), gid) <==> Known(rows, gid)
  {
    var r := ReadRows(rows, columns);
    assert forall i :: 0 <= i < |rows| ==> r[i].account == rows[i].account && r[i].group.id == rows[i].group.id;
    if Linked(rows, aid, gid) {
      var i :| 0 <= i < |rows| && rows[i].account == aid && rows[i].group.id == gid;
      assert r[i].account == aid && r[i].group.id == gid;
    }
    if Known(rows, gid) {
      var i :| 0 <= i < |rows| && rows[i].group.id == gid;
      assert r[i].group.id == gid;
    }
  }

  /** It keeps the same groups in the same order, each read through those columns. */
  lemma {:induction false} FirstGroupsRead(rows: seq<JoinRow>, columns: seq<string>)
    requires ID in columns
    ensures FirstGroups(ReadRows(rows, columns)) == ReadGroups(FirstGroups(rows), columns)
    decreases |rows|
  {
    if rows != [] {
      var n := |rows| - 1;
      FirstGroupsRead(rows[..n], columns);
      assert ReadRows(rows, columns)[..n] == ReadRows(rows[..n], columns);
      ReadRowsKeepLinks(rows[..n], columns, 0, rows[n].group.id);
    }
  }

  lemma {:induction false} LinkedGroupsRead(rows: seq<JoinRow>, columns: seq<string>, aid: int, gs: seq<Row>)
    requires ID in columns
    ensures LinkedGroups(ReadRows(rows, columns), aid, ReadGroups(gs, columns)) ==
            ReadGroups(LinkedGroups(rows, aid, gs), columns)
    decreases |gs|
  {
    if gs != [] {
      var n := |gs| - 1;
      LinkedGroupsRead(rows, columns, aid, gs[..n]);
      assert ReadGroups(gs, columns)[..n] == ReadGroups(gs[..n], columns);
      ReadRowsKeepLinks(rows, columns, aid, gs[n].id);
    }
  }

  // ------------------------------------------------------------------ one-to-many

  /** The children with the given key, in order. */
  function ChildrenOf(children: seq<Row>, key: int): seq<Row> {
    if children == [] then []
    else
      var n := |children| - 1;
      ChildrenOf(children[..n], key) + if children[n].key == Some(key) then [children[n]] else []
  }

  predicate HasOwner(ids: seq<int>, child: Row) {
    child.key.Some? && child.key.value in ids
  }

  /** What parent j is given. */
  function Attached(ids: seq<int>, children: seq<Row>, j: nat): seq<Row>
    requires j < |ids|
  {
    if IsOwner(ids, j) then ChildrenOf(children, ids[j]) else []
  }

  function TotalAttached(ids: seq<int>, children: seq<Row>, j: nat): nat
    requires j <= |ids|
    decreases |ids| - j
  {
    if j == |ids| then 0 else |Attached(ids, children, j)| + TotalAttached(ids, children, j + 1)
  }

  /** If every child has an owner, every child is attached to exactly one parent. */
  lemma {:induction false} EveryChildIsAttachedOnce(ids: seq<int>, children: seq<Row>)
    requires forall c :: c in children ==> HasOwner(ids, c)
    ensures TotalAttached(ids, children, 0) == |children|
    decreases |children|
  {
    if children == [] {
      NothingAttached(ids, 0);
    } else {
      var n := |children| - 1;
      var rest, c := children[..n], children[n];
      EveryChildIsAttachedOnce(ids, rest);
      assert c in children;
      var o := OwnerOf(ids, c.key.value);
      OneMoreAttached(ids, children, o, 0);
    }
  }

  lemma {:induction false} NothingAttached(ids: seq<int>, j: nat)
    requires j <= |ids|
    ensures TotalAttached(ids, [], j) == 0
    decreases |ids| - j
  {
    if j < |ids| {
      NothingAttached(ids, j + 1);
    }
  }

  /** The owner of an ID: its last holder. */
  lemma {:induction false} OwnerOf(ids: seq<int>, id: int) returns (o: nat)
    requires id in ids
    ensures IsOwner(ids, o) && ids[o] == id
    decreases |ids|
  {
    var n := |ids| - 1;
    if ids[n] == id {
      o := n;
    } else {
      assert ids == ids[..n] + [ids[n]];
      o := OwnerOf(ids[..n], id);
      assert ids[o] == ids[..n][o];
      forall l | o < l < |ids|
        ensures ids[l] != ids[o]
      {
        assert l < n ==> ids[..n][l] == ids[l];
      }
    }
  }

  lemma {:induction false} OneMoreAttached(ids: seq<int>, children: seq<Row>, o: nat, j: nat)
    requires children != [] && children[|children| - 1].key.Some?
    requires IsOwner(ids, o) && ids[o] == children[|children| - 1].key.value && j <= |ids|
    ensures TotalAttached(ids, children, j) ==
            TotalAttached(ids, children[..|children| - 1], j) + if j <= o then 1 else 0
    decreases |ids| - j
  {
    if j < |ids| {
      OneMoreAttached(ids, children, o, j + 1);
      assert IsOwner(ids, j) && ids[j] == ids[o] ==> j == o;
    }
  }

  // ------------------------------------------------------------------ many-to-one

  /** The distinct non-nil keys, in order of first appearance. */
  function FirstKeys(keys: seq<Option<int>>): seq<int> {
    if keys == [] then []
    else
      var n := |keys| - 1;
      var before := FirstKeys(keys[..n]);
      if keys[n].Some? && keys[n].value !in before then before + [keys[n].value] else before
  }

  lemma {:induction false} FirstKeysAreDistinct(keys: seq<Option<int>>)
    ensures Distinct(FirstKeys(keys))
    ensures forall k :: k in FirstKeys(keys) <==> Some(k) in keys
    decreases |keys|
  {
    if keys != [] {
      var n := |keys| - 1;
      FirstKeysAreDistinct(keys[..n]);
      var before := FirstKeys(keys[..n]);
      assert keys == keys[..n] + [keys[n]];
      assert forall i :: 0 <= i < |before| ==> before[i] in before;
    }
  }

  /** The last of the rows with the given primary key, if any. */
  function LastWithId(rows: seq<Row>, id: int): Option<Row> {
    if rows == [] then None
    else
      var n := |rows| - 1;
      if rows[n].id == id then Some(rows[n]) else LastWithId(rows[..n], id)
  }

  /** What a parent with the given foreign key ends with. */
  function Target(rows: seq<Row>, key: Option<int>): Option<Row> {
    if key.None? then None else LastWithId(rows, key.value)
  }

  lemma {:induction false} LastWithIdFinds(rows: seq<Row>, id: int)
    ensures LastWithId(rows, id).None? <==> forall row :: row in rows ==> row.id != id
    ensures LastWithId(rows, id).Some? ==> LastWithId(rows, id).value in rows && LastWithId(rows, id).value.id == id
    decreases |rows|
  {
    if rows != [] {
      var n := |rows| - 1;
      assert rows == rows[..n] + [rows[n]];
      LastWithIdFinds(rows[..n], id);
    }
  }
}
