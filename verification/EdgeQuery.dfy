/**
 The query of one entity as the eager loaders use it: predicates and selected fields that builder
 calls append to, the column list made from them, and the rows it returns. A table is a list of
 rows in the order the database returns them.
 */
module EdgeQuery {
  import opened Options

  /** A stored row: its primary key, its foreign key and its other columns. */
  datatype Row = Row(id: int, key: Option<int>, data: map<string, string>)

  /** IN filters on the foreign or primary key, or a predicate of the caller. */
  datatype Pred = KeyIn(ids: seq<int>) | IdIn(ids: seq<int>) | Custom(holds: Row -> bool)

  predicate Holds(p: Pred, row: Row) {
    match p
    case KeyIn(ids) => row.key.Some? && row.key.value in ids
    case IdIn(ids) => row.id in ids
    case Custom(holds) => holds(row)
  }

  predicate HoldsAll(ps: seq<Pred>, row: Row) {
    forall i :: 0 <= i < |ps| ==> Holds(ps[i], row)
  }

  /** The rows that satisfy all predicates, in table order. */
  function Matching(table: seq<Row>, ps: seq<Pred>): seq<Row> {
    if table == [] then []
    else (if HoldsAll(ps, table[0]) then [table[0]] else []) + Matching(table[1..], ps)
  }

  const ID: string := "id"

  function Without(fields: seq<string>, f: string): (r: seq<string>)
    ensures f !in r
    ensures forall g :: g in r <==> g in fields && g != f
  {
    if fields == [] then []
    else (if fields[0] != f then [fields[0]] else []) + Without(fields[1..], f)
  }

  /** `AppendFieldOnce` and `AddColumnOnce`. */
  function Once(fields: seq<string>, f: string): (r: seq<string>)
    ensures f in r && forall g :: g in r <==> g in fields || g == f
    ensures fields <= r
  {
    if f in fields then fields else fields + [f]
  }

  /** The columns read for a selection: all of them if nothing is selected. */
  function ColumnsFor(all: seq<string>, fields: seq<string>, needed: Option<string>): seq<string> {
    if fields == [] then all
    else
      var columns := [ID] + Without(fields, ID);
      if needed.Some? then Once(columns, needed.value) else columns
  }

  /** The columns of a table: its primary key first, and no other column of that name. */
  type TableColumns = cs: seq<string> | StartsWithID(cs) witness [ID]

  predicate StartsWithID(cs: seq<string>) {
    cs != [] && cs[0] == ID && forall i :: 1 <= i < |cs| ==> cs[i] != ID
  }

  /** What a row looks like when only some columns are read: the others have their zero values. */
  function Project(row: Row, columns: seq<string>, keyColumn: string, nullable: bool): Row {
    Row(if ID in columns then row.id else 0,
        if keyColumn in columns then row.key else if nullable then None else Some(0),
        map c | c in row.data && c in columns :: row.data[c])
  }

  function ProjectAll(rows: seq<Row>, columns: seq<string>, keyColumn: string, nullable: bool): (r: seq<Row>)
    ensures |r| == |rows|
    ensures forall i :: 0 <= i < |r| ==> r[i] == Project(rows[i], columns, keyColumn, nullable)
  {
    seq(|rows|, i requires 0 <= i < |rows| => Project(rows[i], columns, keyColumn, nullable))
  }

  /** The parts of a query that no loader changes. */
  datatype Source = Source(
    table: seq<Row>, all: TableColumns, keyColumn: string, nullable: bool, intercept: seq<Row> -> seq<Row>)

  /** The columns the sub-query of a to-many edge reads after its key was re-added. */
  function EdgeColumns(s: Source, fields: seq<string>): seq<string> {
    ColumnsFor(s.all, if fields == [] then [] else Once(fields, s.keyColumn), None)
  }

  function IdsOf(rows: seq<Row>): (ids: seq<int>)
    ensures |ids| == |rows|
    ensures forall i :: 0 <= i < |ids| ==> ids[i] == rows[i].id
  {
    seq(|rows|, i requires 0 <= i < |rows| => rows[i].id)
  }

  function KeysOf(rows: seq<Row>): (keys: seq<Option<int>>)
    ensures |keys| == |rows|
    ensures forall i :: 0 <= i < |keys| ==> keys[i] == rows[i].key
  {
    seq(|rows|, i requires 0 <= i < |rows| => rows[i].key)
  }

  /** What running a query with these predicates and columns returns. */
  function Fetch(s: Source, ps: seq<Pred>, columns: seq<string>): seq<Row> {
    s.intercept(ProjectAll(Matching(s.table, ps), columns, s.keyColumn, s.nullable))
  }

  /** All a query says. */
  datatype QueryState = QueryState(source: Source, predicates: seq<Pred>, fields: seq<string>)

  class TableQuery {
    const source: Source
    var predicates: seq<Pred>
    var fields: seq<string>

    constructor (source: Source, predicates: seq<Pred>, fields: seq<string>)
      ensures this.source == source && this.predicates == predicates && this.fields == fields
    {
      this.source, this.predicates, this.fields := source, predicates, fields;
    }

    function State(): QueryState
      reads this
    {
      QueryState(source, predicates, fields)
    }

    method Where(p: Pred)
      modifies this`predicates
      ensures predicates == old(predicates) + [p]
    {
      predicates := predicates + [p];
    }

    /** Re-adds a foreign key that a selection would leave out. */
    method NeedField(f: string)
      modifies this`fields
      ensures fields == if old(fields) == [] then [] else Once(old(fields), f)
    {
      if |fields| > 0 {
        if f !in fields {
          fields := fields + [f];
        }
      }
    }

    /** The column list of the query, built as `querySpec` does. */
    method QuerySpecColumns(needed: Option<string>) returns (columns: seq<string>)
      ensures columns == ColumnsFor(source.all, fields, needed)
    {
      columns := source.all;
      if |fields| > 0 {
        columns := [ID];
        for i := 0 to |fields|
          invariant columns + Without(fields[i..], ID) == [ID] + Without(fields, ID)
        {
          if fields[i] != ID {
            columns := columns + [fields[i]];
          }
        }
        if needed.Some? && needed.value !in columns {
          columns := columns + [needed.value];
        }
      }
    }

    method All(needed: Option<string>) returns (rows: seq<Row>)
      ensures rows == Fetch(source, predicates, ColumnsFor(source.all, fields, needed))
    {
      var columns := QuerySpecColumns(needed);
      rows := Fetch(source, predicates, columns);
    }
  }

  // ------------------------------------------------------------------ columns

  /**
   The ID comes first and only once; a selection reads, besides it, exactly the selected fields and
   the needed one, and no selection reads everything.
   */
  lemma SelectionKeepsKeys(all: TableColumns, fields: seq<string>, needed: Option<string>)
    ensures var columns := ColumnsFor(all, fields, needed);
            && columns != [] && columns[0] == ID
            && (needed == Some(ID) || forall i :: 1 <= i < |columns| ==> columns[i] != ID)
            && (fields != [] ==> forall f :: f in columns <==> f == ID || f in fields || needed == Some(f))
            && (fields == [] ==> columns == all)
  {
    if fields != [] {
      var rest := Without(fields, ID);
      var columns := [ID] + rest;
      forall f
        ensures f in columns <==> f == ID || f in fields
      {
        assert f in columns <==> f == ID || f in rest;
      }
    }
  }

  /** With the ID among the columns, reading them leaves the IDs as they are. */
  lemma ProjectKeepsIds(rows: seq<Row>, columns: seq<string>, keyColumn: string, nullable: bool)
    requires ID in columns
    ensures IdsOf(ProjectAll(rows, columns, keyColumn, nullable)) == IdsOf(rows)
    ensures keyColumn in columns ==> KeysOf(ProjectAll(rows, columns, keyColumn, nullable)) == KeysOf(rows)
  {
  }

  lemma {:induction false} MatchingHolds(table: seq<Row>, ps: seq<Pred>)
    ensures forall row :: row in Matching(table, ps) <==> row in table && HoldsAll(ps, row)
  {
    if table != [] {
      MatchingHolds(table[1..], ps);
    }
  }

  /** Adding a predicate filters what was there. */
  lemma {:induction false} MatchingTwice(table: seq<Row>, ps: seq<Pred>, qs: seq<Pred>)
    ensures Matching(Matching(table, ps), qs) == Matching(table, ps + qs)
  {
    if table != [] {
      var row, rest := table[0], table[1..];
      MatchingTwice(rest, ps, qs);
      assert HoldsAll(ps + qs, row) <==> HoldsAll(ps, row) && HoldsAll(qs, row) by {
        assert forall i :: 0 <= i < |ps| ==> (ps + qs)[i] == ps[i];
        assert forall i :: 0 <= i < |qs| ==> (ps + qs)[|ps| + i] == qs[i];
      }
      if HoldsAll(ps, row) {
        assert ([row] + Matching(rest, ps))[1..] == Matching(rest, ps);
      } else {
        assert [] + Matching(rest, ps) == Matching(rest, ps);
      }
    }
  }
}
