/**
 Defaults, checks and nodes field by field: what becomes of each column by name, with nothing said
 through the tables that the operations themselves use.
 */
module AccountFields {
  import opened Options
  import opened AccountSchema
  import opened AccountBuilder
  import Rows = AccountRows

  // ------------------------------------------------------------------ defaults

  /** The function-valued defaults that `defaults` needs up to a point are all there. */
  predicate Through(d: Defaults, m: Fields, n: nat) {
    && (n >= 1 ==> CreatedAt in m || d.createdAt.Some?)
    && (n >= 2 ==> UpdatedAt in m || d.updatedAt.Some?)
    && (n >= 3 ==> Credentials in m || d.credentials.Some?)
    && (n >= 4 ==> Extra in m || d.extra.Some?)
  }

  /** The error names the first unset field whose default function is not initialised. */
  lemma DefaultsErrorNames(d: Defaults, m: Fields)
    ensures DefaultsError(d, m) ==
            if !Through(d, m, 1) then Some(Uninitialized(CreatedAt))
            else if !Through(d, m, 2) then Some(Uninitialized(UpdatedAt))
            else if !Through(d, m, 3) then Some(Uninitialized(Credentials))
            else if !Through(d, m, 4) then Some(Uninitialized(Extra))
            else None
  {
    var n := StopsAt(d, m, 0);
    assert n > 0 ==> !Blocks(d, m, FieldAt(0));
    assert n > 1 ==> !Blocks(d, m, FieldAt(1));
    assert n > 2 ==> !Blocks(d, m, FieldAt(2));
    assert n > 3 ==> !Blocks(d, m, FieldAt(3));
  }

  /** Fields that were set are as they were. */
  ghost predicate Extends(m: Fields, after: Fields) {
    forall f :: f in m ==> f in after && after[f] == m[f]
  }

  ghost predicate FunctionDefaults(d: Defaults, m: Fields, after: Fields) {
    && (CreatedAt !in m ==> d.createdAt.Some? && CreatedAt in after && after[CreatedAt] == Time(d.createdAt.value))
    && (UpdatedAt !in m ==> d.updatedAt.Some? && UpdatedAt in after && after[UpdatedAt] == Time(d.updatedAt.value))
    && (Credentials !in m ==>
          d.credentials.Some? && Credentials in after && after[Credentials] == Json(d.credentials.value))
    && (Extra !in m ==> d.extra.Some? && Extra in after && after[Extra] == Json(d.extra.value))
  }

  ghost predicate ConstantDefaults(d: Defaults, m: Fields, after: Fields) {
    && (Concurrency !in m ==> Concurrency in after && after[Concurrency] == Integer(d.concurrency))
    && (Priority !in m ==> Priority in after && after[Priority] == Integer(d.priority))
    && (RateMultiplier !in m ==> RateMultiplier in after && after[RateMultiplier] == Float(d.rateMultiplier))
    && (Status !in m ==> Status in after && after[Status] == Text(d.status))
    && (AutoPauseOnExpired !in m ==>
          AutoPauseOnExpired in after && after[AutoPauseOnExpired] == Bool(d.autoPauseOnExpired))
    && (Schedulable !in m ==> Schedulable in after && after[Schedulable] == Bool(d.schedulable))
  }

  /** Each of the ten fields with a default holds its own unless it was set, and no other field was added. */
  ghost predicate Completed(d: Defaults, m: Fields, after: Fields) {
    && Extends(m, after) && FunctionDefaults(d, m, after) && ConstantDefaults(d, m, after)
    && (forall f :: f in after && f !in m ==>
          || f.CreatedAt? || f.UpdatedAt? || f.Credentials? || f.Extra? || f.Concurrency? || f.Priority?
          || f.RateMultiplier? || f.Status? || f.AutoPauseOnExpired? || f.Schedulable?)
  }

  /** When `defaults` reports no error, every field holds what was set or its own default. */
  lemma DefaultsComplete(d: Defaults, m: Fields)
    requires DefaultsError(d, m).None?
    ensures Completed(d, m, AfterDefaults(d, m))
  {
    DefaultsOnlyAdd(d, m);
    OnlyDefaultedAreAdded(d, m);
    DefaultsAreHeld(d, m);
    FunctionsAreCalled(d, m, AfterDefaults(d, m));
    ConstantsAreSet(d, m, AfterDefaults(d, m));
  }

  /** Each unset field with a default holds it, by the table of defaults. */
  ghost predicate HoldsDefaults(d: Defaults, m: Fields, after: Fields) {
    forall f :: IsDefaulted(f) && f !in m ==> f in after && DefaultOf(d, f) == Some(after[f])
  }

  lemma DefaultsAreHeld(d: Defaults, m: Fields)
    requires DefaultsError(d, m).None?
    ensures HoldsDefaults(d, m, AfterDefaults(d, m))
  {
    SuccessFillsAll(d, m);
    forall f | IsDefaulted(f) && f !in m
      ensures DefaultOf(d, f) == Some(AfterDefaults(d, m)[f])
    {
      FilledAt(d, m, StopsAt(d, m, 0), f);
    }
  }

  lemma FunctionsAreCalled(d: Defaults, m: Fields, after: Fields)
    requires HoldsDefaults(d, m, after)
    ensures FunctionDefaults(d, m, after)
  {
    assert IsDefaulted(CreatedAt) && IsDefaulted(UpdatedAt) && IsDefaulted(Credentials) && IsDefaulted(Extra);
  }

  lemma ConstantsAreSet(d: Defaults, m: Fields, after: Fields)
    requires HoldsDefaults(d, m, after)
    ensures ConstantDefaults(d, m, after)
  {
    assert IsDefaulted(Concurrency) && IsDefaulted(Priority) && IsDefaulted(RateMultiplier) && IsDefaulted(Status);
    assert IsDefaulted(AutoPauseOnExpired) && IsDefaulted(Schedulable);
  }

  lemma OnlyDefaultedAreAdded(d: Defaults, m: Fields)
    ensures forall f :: f in AfterDefaults(d, m) && f !in m ==> IsDefaulted(f)
  {
    forall f | f in AfterDefaults(d, m) && f !in m
      ensures IsDefaulted(f)
    {
      FilledAt(d, m, StopsAt(d, m, 0), f);
    }
  }

  /** There is only one such field set. */
  lemma SameWhenCompleted(d: Defaults, m: Fields, a: Fields, b: Fields)
    requires Completed(d, m, a) && Completed(d, m, b)
    ensures a == b
  {
    forall f
      ensures f in a <==> f in b
      ensures f in a ==> a[f] == b[f]
    {
      if f in a && f !in m {
        SameDefault(d, m, a, b, f);
      }
      if f in b && f !in m {
        SameDefault(d, m, b, a, f);
      }
    }
  }

  lemma SameDefault(d: Defaults, m: Fields, a: Fields, b: Fields, f: Field)
    requires Completed(d, m, a) && Completed(d, m, b) && f in a && f !in m
    ensures f in b && a[f] == b[f]
  {
  }

  /** When it does report one, only the functions before the failing one have been applied. */
  lemma DefaultsStopEarly(d: Defaults, m: Fields)
    requires DefaultsError(d, m).Some?
    ensures var after := AfterDefaults(d, m);
            && Extends(m, after)
            && (CreatedAt in after <==> Through(d, m, 1))
            && (UpdatedAt in after <==> UpdatedAt in m || Through(d, m, 2))
            && (Credentials in after <==> Credentials in m || Through(d, m, 3))
            && (forall f :: f in after && f !in m ==> f.CreatedAt? || f.UpdatedAt? || f.Credentials?)
  {
    DefaultsErrorNames(d, m);
    DefaultsOnlyAdd(d, m);
    var n := StopsAt(d, m, 0);
    forall f
      ensures f in AfterDefaults(d, m) && f !in m ==> f.CreatedAt? || f.UpdatedAt? || f.Credentials?
    {
      FilledAt(d, m, n, f);
    }
    FilledAt(d, m, n, CreatedAt);
    FilledAt(d, m, n, UpdatedAt);
    FilledAt(d, m, n, Credentials);
  }

  // ------------------------------------------------------------------ checks

  /** The order in which fields are checked. */
  const CHECKED: seq<Field> :=
    [CreatedAt, UpdatedAt, Name, Platform, Type, Credentials, Extra, Concurrency, Priority, RateMultiplier,
     Status, AutoPauseOnExpired, Schedulable, SessionWindowStatus]

  /** What is wrong with one field, if anything. */
  function Problem(v: Validators, m: Fields, f: Field): Option<BuildError> {
    if f !in m then if f == SessionWindowStatus then None else Some(MissingField(f))
    else if m[f].Text? && (
        || (f == Name && !v.name(m[f].text))
        || (f == Platform && !v.platform(m[f].text))
        || (f == Type && !v.typ(m[f].text))
        || (f == Status && !v.status(m[f].text))
        || (f == SessionWindowStatus && !v.sessionWindowStatus(m[f].text)))
    then Some(RejectedField(f)) else None
  }

  /** The problems of all fields, in that order. */
  function Problems(v: Validators, m: Fields): (ps: seq<Option<BuildError>>)
    ensures |ps| == |CHECKED| && forall i :: 0 <= i < |ps| ==> ps[i] == Problem(v, m, CHECKED[i])
  {
    seq(|CHECKED|, i requires 0 <= i < |CHECKED| => Problem(v, m, CHECKED[i]))
  }

  /** The first problem of a list. */
  function First(ps: seq<Option<BuildError>>): Option<BuildError> {
    if ps == [] then None else Then(ps[0], First(ps[1..]))
  }

  lemma {:induction false} FirstMeans(ps: seq<Option<BuildError>>)
    ensures First(ps).None? <==> forall i :: 0 <= i < |ps| ==> ps[i].None?
    ensures First(ps).Some? ==>
              exists i :: 0 <= i < |ps| && ps[i] == First(ps) && forall j :: 0 <= j < i ==> ps[j].None?
  {
    if ps != [] {
      FirstMeans(ps[1..]);
      assert forall i :: 0 <= i < |ps| - 1 ==> ps[1..][i] == ps[i + 1];
      assert ps[0].Some? ==> ps[0] == First(ps);
    }
  }

  lemma FirstCons(p: Option<BuildError>, ps: seq<Option<BuildError>>)
    ensures First([p] + ps) == Then(p, First(ps))
  {
    assert ([p] + ps)[1..] == ps;
  }

  lemma FirstOfFive(a: Option<BuildError>, b: Option<BuildError>, c: Option<BuildError>, d: Option<BuildError>,
                    e: Option<BuildError>, ps: seq<Option<BuildError>>)
    ensures First([a, b, c, d, e] + ps) == Then(Then(a, Then(b, Then(c, Then(d, e)))), First(ps))
  {
    FirstCons(e, ps);
    FirstCons(d, [e] + ps);
    FirstCons(c, [d] + ([e] + ps));
    FirstCons(b, [c] + ([d] + ([e] + ps)));
    FirstCons(a, [b] + ([c] + ([d] + ([e] + ps))));
    assert [a, b, c, d, e] + ps == [a] + ([b] + ([c] + ([d] + ([e] + ps))));
  }

  lemma FirstOfFour(a: Option<BuildError>, b: Option<BuildError>, c: Option<BuildError>, d: Option<BuildError>,
                    ps: seq<Option<BuildError>>)
    ensures First([a, b, c, d] + ps) == Then(a, Then(b, Then(c, Then(d, First(ps)))))
  {
    FirstCons(d, ps);
    FirstCons(c, [d] + ps);
    FirstCons(b, [c] + ([d] + ps));
    FirstCons(a, [b] + ([c] + ([d] + ps)));
    assert [a, b, c, d] + ps == [a] + ([b] + ([c] + ([d] + ps)));
  }

  /** The check reports the first problem in that order, and nothing iff there is none. */
  lemma CheckReportsFirst(v: Validators, m: Fields)
    ensures Check(v, m).None? <==> forall i :: 0 <= i < |CHECKED| ==> Problem(v, m, CHECKED[i]).None?
    ensures Check(v, m).Some? ==>
              exists i :: 0 <= i < |CHECKED| && Problem(v, m, CHECKED[i]) == Check(v, m) &&
                          forall j :: 0 <= j < i ==> Problem(v, m, CHECKED[j]).None?
  {
    CheckIsFirst(v, m);
    FirstMeans(Problems(v, m));
  }

  lemma CheckIsFirst(v: Validators, m: Fields)
    ensures Check(v, m) == First(Problems(v, m))
  {
    FirstChecks(v, m);
    OtherChecks(v, m);
    ChainOf(Problems(v, m));
  }

  /** A list of fourteen problems as the checks chain them. */
  lemma ChainOf(ps: seq<Option<BuildError>>)
    requires |ps| == 14
    ensures First(ps) ==
            Then(Then(ps[0], Then(ps[1], Then(ps[2], Then(ps[3], ps[4])))),
            Then(ps[5], Then(ps[6], Then(ps[7], Then(ps[8],
            Then(ps[9], Then(ps[10], Then(ps[11], Then(ps[12], ps[13])))))))))
  {
    var rest := [ps[5], ps[6], ps[7], ps[8], ps[9], ps[10], ps[11], ps[12], ps[13]];
    FirstOfNine(ps[5], ps[6], ps[7], ps[8], ps[9], ps[10], ps[11], ps[12], ps[13]);
    FirstOfFive(ps[0], ps[1], ps[2], ps[3], ps[4], rest);
    assert ps == [ps[0], ps[1], ps[2], ps[3], ps[4]] + rest;
  }

  lemma FirstOfNine(a: Option<BuildError>, b: Option<BuildError>, c: Option<BuildError>, d: Option<BuildError>,
                    e: Option<BuildError>, f: Option<BuildError>, g: Option<BuildError>, h: Option<BuildError>,
                    i: Option<BuildError>)
    ensures First([a, b, c, d, e, f, g, h, i]) ==
            Then(a, Then(b, Then(c, Then(d, Then(e, Then(f, Then(g, Then(h, i))))))))
  {
    FirstOfFive(e, f, g, h, i, []);
    assert [e, f, g, h, i] + [] == [e, f, g, h, i];
    FirstOfFour(a, b, c, d, [e, f, g, h, i]);
    assert [a, b, c, d, e, f, g, h, i] == [a, b, c, d] + [e, f, g, h, i];
  }

  lemma MissingIs(v: Validators, m: Fields, f: Field)
    requires GoType(f) != TextKind
    ensures Missing(m, f) == Problem(v, m, f)
  {
    assert f in m ==> KindOf(m[f]) == GoType(f);
  }

  lemma RejectedIs(v: Validators, m: Fields)
    ensures MissingOrRejected(m, Name, v.name) == Problem(v, m, Name)
    ensures MissingOrRejected(m, Platform, v.platform) == Problem(v, m, Platform)
    ensures MissingOrRejected(m, Type, v.typ) == Problem(v, m, Type)
    ensures MissingOrRejected(m, Status, v.status) == Problem(v, m, Status)
  {
    assert forall f :: f in m && GoType(f) == TextKind ==> KindOf(m[f]) == TextKind;
  }

  lemma WindowIs(v: Validators, m: Fields)
    ensures Problem(v, m, SessionWindowStatus) ==
            if SessionWindowStatus in m && !v.sessionWindowStatus(TextOf(m, SessionWindowStatus))
            then Some(RejectedField(SessionWindowStatus)) else None
  {
    assert SessionWindowStatus in m ==> KindOf(m[SessionWindowStatus]) == GoType(SessionWindowStatus);
  }

  lemma FirstChecks(v: Validators, m: Fields)
    ensures CheckFirst(v, m) ==
            Then(Problem(v, m, CreatedAt),
            Then(Problem(v, m, UpdatedAt),
            Then(Problem(v, m, Name),
            Then(Problem(v, m, Platform), Problem(v, m, Type)))))
  {
    MissingIs(v, m, CreatedAt);
    MissingIs(v, m, UpdatedAt);
    RejectedIs(v, m);
  }

  lemma OtherChecks(v: Validators, m: Fields)
    ensures CheckRest(v, m) ==
            Then(Problem(v, m, Credentials),
            Then(Problem(v, m, Extra),
            Then(Problem(v, m, Concurrency),
            Then(Problem(v, m, Priority),
            Then(Problem(v, m, RateMultiplier),
            Then(Problem(v, m, Status),
            Then(Problem(v, m, AutoPauseOnExpired),
            Then(Problem(v, m, Schedulable), Problem(v, m, SessionWindowStatus)))))))))
  {
    MissingIs(v, m, Credentials);
    MissingIs(v, m, Extra);
    MissingIs(v, m, Concurrency);
    MissingIs(v, m, Priority);
    MissingIs(v, m, RateMultiplier);
    MissingIs(v, m, AutoPauseOnExpired);
    MissingIs(v, m, Schedulable);
    RejectedIs(v, m);
    WindowIs(v, m);
  }

  // ------------------------------------------------------------------ nodes

  /** A field held directly: its value, or the zero value of its type. */
  predicate Direct(m: Fields, cells: map<Field, Rows.Cell>, f: Field, zero: Value) {
    f in cells && cells[f] == Rows.Plain(if f in m then m[f] else zero)
  }

  /** A field held through a pointer: nil unless it was set. */
  predicate Nillable(m: Fields, cells: map<Field, Rows.Cell>, f: Field) {
    f in cells && cells[f] == if f in m then Rows.Pointer(m[f]) else Rows.Nil
  }

  ghost predicate TextCells(m: Fields, cells: map<Field, Rows.Cell>) {
    && Direct(m, cells, Name, Text("")) && Direct(m, cells, Platform, Text(""))
    && Direct(m, cells, Type, Text("")) && Direct(m, cells, Status, Text(""))
  }

  ghost predicate OtherDirectCells(m: Fields, cells: map<Field, Rows.Cell>) {
    && Direct(m, cells, CreatedAt, Time(0)) && Direct(m, cells, UpdatedAt, Time(0))
    && Direct(m, cells, Credentials, Json(JsonNull)) && Direct(m, cells, Extra, Json(JsonNull))
    && Direct(m, cells, Concurrency, Integer(0)) && Direct(m, cells, Priority, Integer(0))
    && Direct(m, cells, RateMultiplier, Float(0.0))
    && Direct(m, cells, AutoPauseOnExpired, Bool(false)) && Direct(m, cells, Schedulable, Bool(false))
  }

  ghost predicate NillableCells(m: Fields, cells: map<Field, Rows.Cell>) {
    && Nillable(m, cells, DeletedAt) && Nillable(m, cells, Notes) && Nillable(m, cells, ProxyID)
    && Nillable(m, cells, ProxyFallbackOriginID) && Nillable(m, cells, LoadFactor)
    && Nillable(m, cells, ErrorMessage) && Nillable(m, cells, LastUsedAt) && Nillable(m, cells, ExpiresAt)
  }

  ghost predicate MoreNillableCells(m: Fields, cells: map<Field, Rows.Cell>) {
    && Nillable(m, cells, RateLimitedAt) && Nillable(m, cells, RateLimitResetAt)
    && Nillable(m, cells, OverloadUntil) && Nillable(m, cells, TempUnschedulableUntil)
    && Nillable(m, cells, TempUnschedulableReason) && Nillable(m, cells, SessionWindowStart)
    && Nillable(m, cells, SessionWindowEnd) && Nillable(m, cells, SessionWindowStatus)
  }

  ghost predicate CellsOf(m: Fields, cells: map<Field, Rows.Cell>) {
    && TextCells(m, cells) && OtherDirectCells(m, cells)
    && NillableCells(m, cells) && MoreNillableCells(m, cells)
  }

  /** The cells a node has, by the tables of types and pointers. */
  ghost predicate CellsByType(m: Fields, cells: map<Field, Rows.Cell>) {
    && (forall f :: !IsPointer(f) ==> Direct(m, cells, f, Rows.ZeroValue(GoType(f))))
    && (forall f :: IsPointer(f) ==> Nillable(m, cells, f))
  }

  lemma NodeCells(m: Fields)
    ensures CellsByType(m, Rows.NodeOf(m).cells)
  {
    forall f
      ensures !IsPointer(f) ==> Direct(m, Rows.NodeOf(m).cells, f, Rows.ZeroValue(GoType(f)))
      ensures IsPointer(f) ==> Nillable(m, Rows.NodeOf(m).cells, f)
    {
      Rows.FieldIsStored(Rows.Codec(_ => [], (_, _) => None), m, 0, f);
    }
  }

  lemma TextsHold(m: Fields, cells: map<Field, Rows.Cell>)
    requires CellsByType(m, cells)
    ensures TextCells(m, cells)
  {
    assert !IsPointer(Name) && !IsPointer(Platform) && !IsPointer(Type) && !IsPointer(Status);
  }

  lemma OtherDirectsHold(m: Fields, cells: map<Field, Rows.Cell>)
    requires CellsByType(m, cells)
    ensures OtherDirectCells(m, cells)
  {
    assert !IsPointer(CreatedAt) && !IsPointer(UpdatedAt) && !IsPointer(Credentials) && !IsPointer(Extra);
    assert !IsPointer(Concurrency) && !IsPointer(Priority) && !IsPointer(RateMultiplier);
    assert !IsPointer(AutoPauseOnExpired) && !IsPointer(Schedulable);
  }

  lemma NillablesHold(m: Fields, cells: map<Field, Rows.Cell>)
    requires CellsByType(m, cells)
    ensures NillableCells(m, cells)
  {
    assert IsPointer(DeletedAt) && IsPointer(Notes) && IsPointer(ProxyID) && IsPointer(ProxyFallbackOriginID);
    assert IsPointer(LoadFactor) && IsPointer(ErrorMessage) && IsPointer(LastUsedAt) && IsPointer(ExpiresAt);
  }

  lemma MoreNillablesHold(m: Fields, cells: map<Field, Rows.Cell>)
    requires CellsByType(m, cells)
    ensures MoreNillableCells(m, cells)
  {
    assert IsPointer(RateLimitedAt) && IsPointer(RateLimitResetAt) && IsPointer(OverloadUntil);
    assert IsPointer(TempUnschedulableUntil) && IsPointer(TempUnschedulableReason);
    assert IsPointer(SessionWindowStart) && IsPointer(SessionWindowEnd) && IsPointer(SessionWindowStatus);
  }

  /** The node of a mutation holds each field as its Go type says. */
  lemma NodeHolds(m: Fields)
    ensures CellsOf(m, Rows.NodeOf(m).cells)
  {
    var cells := Rows.NodeOf(m).cells;
    NodeCells(m);
    TextsHold(m, cells);
    OtherDirectsHold(m, cells);
    NillablesHold(m, cells);
    MoreNillablesHold(m, cells);
  }

  /** Under a codec that keeps its documents, a row read back whole gives a node that holds each field so. */
  lemma RowReadsAs(codec: Rows.Codec, m: Fields, id: int, columns: seq<Rows.Column>)
    requires Rows.KeepsDocuments(codec, m)
    requires Rows.IdColumn in columns && forall f: Field :: Rows.FieldColumn(f) in columns
    ensures var r := Rows.ReadRow(codec, Rows.SpecOf(m), id, Rows.NewAccount(), columns);
            r.Ok? && r.value.id == id && CellsOf(m, r.value.cells)
  {
    Rows.CreateReadRoundTrip(codec, m, id, columns);
    NodeHolds(m);
  }

  // ------------------------------------------------------------------ rows

  /** A row has exactly the given fields with their types, the proxy's key as an edge. */
  ghost predicate RowHolds(m: Fields, row: Rows.Spec) {
    && (forall f :: f in row.columns <==> f in m && f != ProxyID)
    && (forall f :: f in row.columns ==> row.columns[f] == Rows.TypedValue(KindOf(m[f]), m[f]))
    && row.proxyEdge == (if ProxyID in m then [m[ProxyID].i] else [])
    && row.idValue.None?
  }

  lemma SpecHolds(m: Fields)
    ensures RowHolds(m, Rows.SpecOf(m))
  {
    forall f | f in m
      ensures Rows.SpecKind(f) == KindOf(m[f])
    {
      Rows.TablesAgree(f);
      assert KindOf(m[f]) == GoType(f);
    }
  }

  /**
   A destination of another kind than the one allocated for its column is refused, and only such a
   one; a NULL leaves the record alone, and a column that is no field is kept by its name.
   */
  lemma HolderDecides(codec: Rows.Codec, a: Rows.Account, c: Rows.Column, h: Rows.Holder)
    ensures Rows.AssignColumn(codec, a, c, h) == Rows.Err(Rows.UnexpectedType(c)) <==>
              !c.OtherColumn? && h.kind != Rows.ScanKind(c)
    ensures c.FieldColumn? && h.kind == Rows.ScanKind(c) && h.content.Null? ==>
              Rows.AssignColumn(codec, a, c, h) == Rows.Ok(a)
    ensures c.OtherColumn? ==> Rows.AssignColumn(codec, a, c, h) == Rows.Ok(a.(selected := a.selected[c.name := h]))
  {
    if c.FieldColumn? {
      Rows.TablesAgree(c.f);
    }
  }
}
