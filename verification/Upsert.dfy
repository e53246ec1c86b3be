/**
 Conflict options of a create: the calls that collect them, and what they resolve to when a row
 conflicts. Options are kept as data and evaluated when the insert runs, against the mutations as
 they stand then; a later assignment to a column replaces an earlier one.
 */
module Upsert {
  import opened Options
  import opened AccountSchema

  /**
   One assignment made inside an `Update` callback. The callback gets the whole update set, so it
   can name any column, whether or not there is a typed setter for it.
   */
  datatype ColumnSet =
    | SetTo(f: Field, v: Value)
    | SetExcluded(f: Field)
    | SetNull(f: Field)
    | SetIgnore(f: Field)
    | AddTo(f: Field, v: Value)

  /** There is no typed setter for `created_at`. */
  predicate IsTyped(s: ColumnSet) {
    s.f != CreatedAt
  }

  predicate AllTyped(ss: seq<ColumnSet>) {
    forall i :: 0 <= i < |ss| ==> IsTyped(ss[i])
  }

  datatype ConflictOption =
    | Target(columns: seq<Field>)
    | ResolveWithNewValues
    | ResolveWithIgnore
    | KeepCreatedAt
    | ResolveWith(sets: seq<ColumnSet>)
    | DoNothing

  /** What a column of the conflicting row is set to. */
  datatype Assignment = Excluded | Itself | To(v: Value) | Null | Sum(v: Value)

  type UpdateSet = map<Field, Assignment>

  /** The columns of the insert: those set on any of its mutations. */
  function Columns(ms: seq<Fields>): set<Field> {
    set i, f | 0 <= i < |ms| && f in ms[i] :: f
  }

  function ApplySet(u: UpdateSet, s: ColumnSet): UpdateSet {
    match s
    case SetTo(f, v) => u[f := To(v)]
    case SetExcluded(f) => u[f := Excluded]
    case SetNull(f) => u[f := Null]
    case SetIgnore(f) => u[f := Itself]
    case AddTo(f, v) => u[f := Sum(v)]
  }

  function ApplySets(u: UpdateSet, ss: seq<ColumnSet>): UpdateSet
    decreases |ss|
  {
    if ss == [] then u else ApplySets(ApplySet(u, ss[0]), ss[1..])
  }

  /** One option's effect on the update set of an insert of `ms`. */
  function Apply(ms: seq<Fields>, u: UpdateSet, o: ConflictOption): UpdateSet {
    match o
    case Target(_) => u
    case ResolveWithNewValues => u + map f | f in Columns(ms) :: Excluded
    case ResolveWithIgnore => u + map f | f in Columns(ms) :: Itself
    case KeepCreatedAt => if exists i :: 0 <= i < |ms| && CreatedAt in ms[i] then u[CreatedAt := Itself] else u
    case ResolveWith(sets) => ApplySets(u, sets)
    case DoNothing => u
  }

  /** The update set of the options, in order. */
  function Evaluate(ms: seq<Fields>, os: seq<ConflictOption>): UpdateSet {
    if os == [] then map[] else Apply(ms, Evaluate(ms, os[..|os| - 1]), os[|os| - 1])
  }

  /** The conflicting row afterwards, column by column; an absent column is NULL. */
  function Resolved(os: seq<ConflictOption>, ms: seq<Fields>, stored: Fields, proposed: Fields,
                    f: Field): Option<Value>
  {
    var before := if f in stored then Some(stored[f]) else None;
    var u := Evaluate(ms, os);
    if DoNothing in os || f !in u then before
    else
      match u[f]
      case Itself => before
      case Excluded => if f in proposed then Some(proposed[f]) else None
      case To(v) => Some(v)
      case Null => None
      case Sum(v) => Plus(before, v)
  }

  /**
   `column + value`; adding to NULL gives NULL, and a value that cannot be added to the column is
   refused by the database, which leaves the row alone.
   */
  function Plus(before: Option<Value>, v: Value): Option<Value> {
    match before
    case None => None
    case Some(Integer(i)) => if v.Integer? then Some(Integer(i + v.i)) else before
    case Some(Float(r)) => if v.Float? then Some(Float(r + v.r)) else before
    case Some(Time(t)) => if v.Integer? then Some(Time(t + v.i)) else before
    case Some(_) => before
  }

  // ------------------------------------------------------------------ the calls

  datatype UpsertCall =
    | OnConflict(options: seq<ConflictOption>)
    | OnConflictColumns(columns: seq<Field>)
    | UpdateNewValues
    | Ignore
    | Nothing
    | Update(sets: seq<ColumnSet>)

  function Collected(os: seq<ConflictOption>, call: UpsertCall): seq<ConflictOption> {
    match call
    case OnConflict(options) => options
    case OnConflictColumns(columns) => os + [Target(columns)]
    case UpdateNewValues => os + [ResolveWithNewValues, KeepCreatedAt]
    case Ignore => os + [ResolveWithIgnore]
    case Nothing => os + [DoNothing]
    case Update(sets) => os + [ResolveWith(sets)]
  }

  function CollectedAll(os: seq<ConflictOption>, calls: seq<UpsertCall>): seq<ConflictOption> {
    if calls == [] then os else Collected(CollectedAll(os, calls[..|calls| - 1]), calls[|calls| - 1])
  }

  datatype ExecError = Preset(code: int) | OptionsOnBuilder(index: nat) | MissingOptions

  class UpsertBuilder {
    var conflict: seq<ConflictOption>

    constructor ()
      ensures conflict == []
    {
      conflict := [];
    }

    method Append(o: ConflictOption)
      modifies this
      ensures conflict == old(conflict) + [o]
    {
      conflict := conflict + [o];
    }

    method Call(call: UpsertCall)
      modifies this
      ensures conflict == Collected(old(conflict), call)
    {
      match call
      case OnConflict(options) =>
        conflict := options;
      case OnConflictColumns(columns) =>
        Append(Target(columns));
      case UpdateNewValues =>
        Append(ResolveWithNewValues);
        Append(KeepCreatedAt);
      case Ignore =>
        Append(ResolveWithIgnore);
      case Nothing =>
        Append(DoNothing);
      case Update(sets) =>
        Append(ResolveWith(sets));
    }

    /** `Exec` of a single upsert refuses to run without options. */
    method ExecOne() returns (err: Option<ExecError>)
      ensures err.None? <==> conflict != []
      ensures err.Some? ==> err.value == MissingOptions
    {
      return if |conflict| == 0 then Some(MissingOptions) else None;
    }

    /** `Exec` of a bulk upsert: options belong on the bulk builder, and only there. */
    method ExecBulk(preset: Option<int>, builders: seq<seq<ConflictOption>>) returns (err: Option<ExecError>)
      ensures err.None? <==> preset.None? && conflict != [] && forall i :: 0 <= i < |builders| ==> builders[i] == []
      ensures preset.Some? ==> err == Some(Preset(preset.value))
      ensures err.Some? && err.value.OptionsOnBuilder? ==>
                var k := err.value.index;
                k < |builders| && builders[k] != [] && forall i :: 0 <= i < k ==> builders[i] == []
    {
      if preset.Some? {
        return Some(Preset(preset.value));
      }
      for i := 0 to |builders|
        invariant forall j :: 0 <= j < i ==> builders[j] == []
      {
        if |builders[i]| != 0 {
          return Some(OptionsOnBuilder(i));
        }
      }
      return if |conflict| == 0 then Some(MissingOptions) else None;
    }
  }

  // ------------------------------------------------------------------ the last assignment decides

  /** Some mutation of the insert sets the field. */
  predicate Inserted(ms: seq<Fields>, f: Field) {
    exists i :: 0 <= i < |ms| && f in ms[i]
  }

  /** What an option assigns to a column, if anything. */
  function AssignedBy(ms: seq<Fields>, o: ConflictOption, f: Field): Option<Assignment> {
    match o
    case ResolveWithNewValues => if Inserted(ms, f) then Some(Excluded) else None
    case ResolveWithIgnore => if Inserted(ms, f) then Some(Itself) else None
    case KeepCreatedAt => if f == CreatedAt && Inserted(ms, f) then Some(Itself) else None
    case ResolveWith(sets) => LastSet(sets, f)
    case _ => None
  }

  function AssignmentOf(s: ColumnSet): Assignment {
    match s
    case SetTo(_, v) => To(v)
    case SetExcluded(_) => Excluded
    case SetNull(_) => Null
    case SetIgnore(_) => Itself
    case AddTo(_, v) => Sum(v)
  }

  /** The last assignment of a callback to a column. */
  function LastSet(ss: seq<ColumnSet>, f: Field): (a: Option<Assignment>)
    ensures a.None? <==> forall i :: 0 <= i < |ss| ==> ss[i].f != f
  {
    if ss == [] then None
    else
      var n := |ss| - 1;
      if ss[n].f != f then LastSet(ss[..n], f) else Some(AssignmentOf(ss[n]))
  }

  lemma {:induction false} SetsAssign(u: UpdateSet, ss: seq<ColumnSet>, f: Field)
    ensures LastSet(ss, f).None? ==> (f in ApplySets(u, ss) <==> f in u)
    ensures LastSet(ss, f).None? && f in u ==> ApplySets(u, ss)[f] == u[f]
    ensures LastSet(ss, f).Some? ==> f in ApplySets(u, ss) && ApplySets(u, ss)[f] == LastSet(ss, f).value
    decreases |ss|
  {
    if ss != [] {
      var n := |ss| - 1;
      SetsAssign(u, ss[..n], f);
      ApplySetsSnoc(u, ss);
    }
  }

  lemma {:induction false} ApplySetsSnoc(u: UpdateSet, ss: seq<ColumnSet>)
    requires ss != []
    ensures ApplySets(u, ss) == ApplySet(ApplySets(u, ss[..|ss| - 1]), ss[|ss| - 1])
    decreases |ss|
  {
    if |ss| > 1 {
      ApplySetsSnoc(ApplySet(u, ss[0]), ss[1..]);
      assert ss[1..][..|ss| - 2] == ss[..|ss| - 1][1..];
    } else {
      assert ss[1..] == [];
    }
  }

  lemma ColumnsAreInserted(ms: seq<Fields>, f: Field)
    ensures f in Columns(ms) <==> Inserted(ms, f)
  {
  }

  /** One option's effect on what a column is set to. */
  lemma OptionAssigns(ms: seq<Fields>, u: UpdateSet, o: ConflictOption, f: Field)
    ensures var a, u' := AssignedBy(ms, o, f), Apply(ms, u, o);
            && (a.None? ==> (f in u' <==> f in u) && (f in u ==> u'[f] == u[f]))
            && (a.Some? ==> f in u' && u'[f] == a.value)
  {
    ColumnsAreInserted(ms, f);
    if o.ResolveWith? {
      SetsAssign(u, o.sets, f);
    }
  }

  /** What a column is set to in the end, if anything. */
  function Final(ms: seq<Fields>, os: seq<ConflictOption>, f: Field): Option<Assignment> {
    var u := Evaluate(ms, os);
    if f in u then Some(u[f]) else None
  }

  /** Option i assigns the column and no later one does. */
  predicate DecidesAt(ms: seq<Fields>, os: seq<ConflictOption>, f: Field, i: nat) {
    i < |os| && AssignedBy(ms, os[i], f).Some? && forall j :: i < j < |os| ==> AssignedBy(ms, os[j], f).None?
  }

  /** The last option that assigns a column decides what it is set to. */
  lemma {:induction false} LastOptionDecides(ms: seq<Fields>, os: seq<ConflictOption>, f: Field, i: nat)
    requires DecidesAt(ms, os, f, i)
    ensures Final(ms, os, f) == AssignedBy(ms, os[i], f)
    decreases |os|
  {
    var n := |os| - 1;
    OptionAssigns(ms, Evaluate(ms, os[..n]), os[n], f);
    if i < n {
      assert forall j :: 0 <= j < n ==> os[..n][j] == os[j];
      LastOptionDecides(ms, os[..n], f, i);
    }
  }

  lemma {:induction false} NoOptionDecides(ms: seq<Fields>, os: seq<ConflictOption>, f: Field)
    requires forall i :: 0 <= i < |os| ==> AssignedBy(ms, os[i], f).None?
    ensures Final(ms, os, f).None?
    decreases |os|
  {
    if os != [] {
      var n := |os| - 1;
      OptionAssigns(ms, Evaluate(ms, os[..n]), os[n], f);
      NoOptionDecides(ms, os[..n], f);
    }
  }

  /** A column that is set is set by some option. */
  lemma {:induction false} SomeOptionDecides(ms: seq<Fields>, os: seq<ConflictOption>, f: Field) returns (i: nat)
    requires Final(ms, os, f).Some?
    ensures DecidesAt(ms, os, f, i)
    decreases |os|
  {
    var n := |os| - 1;
    OptionAssigns(ms, Evaluate(ms, os[..n]), os[n], f);
    if AssignedBy(ms, os[n], f).Some? {
      i := n;
    } else {
      i := SomeOptionDecides(ms, os[..n], f);
      assert forall j :: 0 <= j < n ==> os[..n][j] == os[j];
    }
  }

  /** What becomes of a column that is set so; an absent value is NULL. */
  function ValueSet(a: Assignment, stored: Option<Value>, proposed: Option<Value>): Option<Value> {
    match a
    case Itself => stored
    case Excluded => proposed
    case To(v) => Some(v)
    case Null => None
    case Sum(Integer(k)) =>
      (match stored
       case Some(Integer(i)) => Some(Integer(i + k))
       case Some(Time(t)) => Some(Time(t + k))
       case _ => stored)
    case Sum(Float(k)) =>
      (match stored
       case Some(Float(r)) => Some(Float(r + k))
       case _ => stored)
    case Sum(_) => stored
  }

  function At(row: Fields, f: Field): Option<Value> {
    if f in row then Some(row[f]) else None
  }

  lemma ResolvedIs(ms: seq<Fields>, os: seq<ConflictOption>, stored: Fields, proposed: Fields, f: Field)
    ensures Resolved(os, ms, stored, proposed, f) ==
            if DoNothing in os || Final(ms, os, f).None? then At(stored, f)
            else ValueSet(Final(ms, os, f).value, At(stored, f), At(proposed, f))
  {
  }

  /**
   The resolved row, column by column: the stored one if the conflict is ignored or nothing assigns
   the column, else what its last assignment says.
   */
  lemma ResolvedByLast(ms: seq<Fields>, os: seq<ConflictOption>, stored: Fields, proposed: Fields, f: Field)
    ensures DoNothing in os ==> Resolved(os, ms, stored, proposed, f) == At(stored, f)
    ensures (forall i :: 0 <= i < |os| ==> AssignedBy(ms, os[i], f).None?) ==>
              Resolved(os, ms, stored, proposed, f) == At(stored, f)
    ensures forall i: nat :: DoNothing !in os && DecidesAt(ms, os, f, i) ==>
              Resolved(os, ms, stored, proposed, f) ==
              ValueSet(AssignedBy(ms, os[i], f).value, At(stored, f), At(proposed, f))
  {
    ResolvedIs(ms, os, stored, proposed, f);
    forall i: nat | DecidesAt(ms, os, f, i)
      ensures Final(ms, os, f) == AssignedBy(ms, os[i], f)
    {
      LastOptionDecides(ms, os, f, i);
    }
    if forall i :: 0 <= i < |os| ==> AssignedBy(ms, os[i], f).None? {
      NoOptionDecides(ms, os, f);
    }
  }

  // ------------------------------------------------------------------ sequences of calls, every column

  /** What a call assigns to a column, if anything. */
  function CallAssigns(ms: seq<Fields>, call: UpsertCall, f: Field): Option<Assignment> {
    match call
    case UpdateNewValues => if Inserted(ms, f) then Some(if f == CreatedAt then Itself else Excluded) else None
    case Ignore => if Inserted(ms, f) then Some(Itself) else None
    case Update(sets) => LastSet(sets, f)
    case _ => None
  }

  predicate LastCall(ms: seq<Fields>, calls: seq<UpsertCall>, f: Field, i: nat) {
    && i < |calls| && CallAssigns(ms, calls[i], f).Some?
    && forall j :: i < j < |calls| ==> CallAssigns(ms, calls[j], f).None?
  }

  predicate NoReset(calls: seq<UpsertCall>) {
    forall i :: 0 <= i < |calls| ==> !calls[i].OnConflict?
  }

  /** Appending options one after the other. */
  lemma FinalSnoc(ms: seq<Fields>, os: seq<ConflictOption>, o: ConflictOption, f: Field)
    ensures Final(ms, os + [o], f) == if AssignedBy(ms, o, f).Some? then AssignedBy(ms, o, f) else Final(ms, os, f)
  {
    assert (os + [o])[..|os|] == os;
    OptionAssigns(ms, Evaluate(ms, os), o, f);
  }

  lemma CallDecides(ms: seq<Fields>, os: seq<ConflictOption>, call: UpsertCall, f: Field)
    requires !call.OnConflict?
    ensures Final(ms, Collected(os, call), f) ==
            if CallAssigns(ms, call, f).Some? then CallAssigns(ms, call, f) else Final(ms, os, f)
    ensures DoNothing in Collected(os, call) <==> DoNothing in os || call == Nothing
  {
    match call
    case OnConflictColumns(columns) => FinalSnoc(ms, os, Target(columns), f);
    case UpdateNewValues =>
      FinalSnoc(ms, os, ResolveWithNewValues, f);
      FinalSnoc(ms, os + [ResolveWithNewValues], KeepCreatedAt, f);
      assert os + [ResolveWithNewValues, KeepCreatedAt] == os + [ResolveWithNewValues] + [KeepCreatedAt];
    case Ignore => FinalSnoc(ms, os, ResolveWithIgnore, f);
    case Nothing => FinalSnoc(ms, os, DoNothing, f);
    case Update(sets) => FinalSnoc(ms, os, ResolveWith(sets), f);
  }

  lemma {:induction false} LastCallDecides(ms: seq<Fields>, os: seq<ConflictOption>, calls: seq<UpsertCall>, f: Field)
    requires NoReset(calls)
    ensures forall i: nat :: LastCall(ms, calls, f, i) ==>
              Final(ms, CollectedAll(os, calls), f) == CallAssigns(ms, calls[i], f)
    ensures (forall i :: 0 <= i < |calls| ==> CallAssigns(ms, calls[i], f).None?) ==>
              Final(ms, CollectedAll(os, calls), f) == Final(ms, os, f)
    ensures DoNothing in CollectedAll(os, calls) <==> DoNothing in os || Nothing in calls
    decreases |calls|
  {
    if calls != [] {
      var n := |calls| - 1;
      var rest := calls[..n];
      assert calls == rest + [calls[n]];
      LastCallDecides(ms, os, rest, f);
      CallDecides(ms, CollectedAll(os, rest), calls[n], f);
      forall i: nat | LastCall(ms, calls, f, i)
        ensures Final(ms, CollectedAll(os, calls), f) == CallAssigns(ms, calls[i], f)
      {
        assert i < n ==> LastCall(ms, rest, f, i);
      }
    }
  }

  /**
   After any sequence of upsert calls every column of the conflicting row is decided by the last
   call that assigns it: `UpdateNewValues` gives the proposed value, `created_at` excepted, `Ignore`
   the stored one, `Update` what it sets last; a column no call assigns is left to the options the
   calls started with, and with `DoNothing` anywhere the row stays as stored.
   */
  lemma CallsResolve(ms: seq<Fields>, os: seq<ConflictOption>, calls: seq<UpsertCall>,
                     stored: Fields, proposed: Fields, f: Field)
    requires NoReset(calls)
    ensures var r := Resolved(CollectedAll(os, calls), ms, stored, proposed, f);
            && (DoNothing in os || Nothing in calls ==> r == At(stored, f))
            && (forall i: nat :: DoNothing !in os && Nothing !in calls && LastCall(ms, calls, f, i) ==>
                  r == ValueSet(CallAssigns(ms, calls[i], f).value, At(stored, f), At(proposed, f)))
            && (Nothing !in calls && (forall i :: 0 <= i < |calls| ==> CallAssigns(ms, calls[i], f).None?) ==>
                  r == Resolved(os, ms, stored, proposed, f))
  {
    LastCallDecides(ms, os, calls, f);
    ResolvedIs(ms, os, stored, proposed, f);
    ResolvedIs(ms, CollectedAll(os, calls), stored, proposed, f);
  }

  /** `OnConflict` starts over: what was called before it no longer matters. */
  lemma {:induction false} OnConflictStartsOver(os: seq<ConflictOption>, before: seq<UpsertCall>,
                                                options: seq<ConflictOption>, after: seq<UpsertCall>)
    ensures CollectedAll(os, before + [OnConflict(options)] + after) == CollectedAll(options, after)
    decreases |after|
  {
    var all := before + [OnConflict(options)] + after;
    if after == [] {
      assert all[|all| - 1] == OnConflict(options);
    } else {
      var n := |after| - 1;
      assert all[..|all| - 1] == before + [OnConflict(options)] + after[..n];
      OnConflictStartsOver(os, before, options, after[..n]);
    }
  }

  // ------------------------------------------------------------------ created_at

  /** Assignments under which every stored `created_at` stays: to itself, or adding nothing. */
  predicate Keeps(a: Assignment) {
    a == Itself || (a.Sum? && (!a.v.Integer? || a.v.i == 0))
  }

  /** Option i overwrites `created_at` and no later option assigns it again. */
  predicate OverwritesAt(ms: seq<Fields>, os: seq<ConflictOption>, i: nat) {
    && i < |os|
    && AssignedBy(ms, os[i], CreatedAt).Some? && !Keeps(AssignedBy(ms, os[i], CreatedAt).value)
    && forall j :: i < j < |os| ==> AssignedBy(ms, os[j], CreatedAt).None?
  }

  /** The last option that assigns `created_at` decides, and it overwrites it iff `OverwritesAt` says so. */
  lemma CreatedAtAssignment(ms: seq<Fields>, os: seq<ConflictOption>)
    ensures var u := Evaluate(ms, os);
            CreatedAt in u && !Keeps(u[CreatedAt]) <==> exists i :: OverwritesAt(ms, os, i)
  {
    if i: nat :| OverwritesAt(ms, os, i) {
      LastOptionDecides(ms, os, CreatedAt, i);
    }
    if Final(ms, os, CreatedAt).Some? && !Keeps(Final(ms, os, CreatedAt).value) {
      var i := SomeOptionDecides(ms, os, CreatedAt);
      LastOptionDecides(ms, os, CreatedAt, i);
      assert OverwritesAt(ms, os, i);
    }
  }

  /** The conflicting row keeps its `created_at`, whatever the two rows hold. */
  ghost predicate KeepsCreatedAt(ms: seq<Fields>, os: seq<ConflictOption>) {
    forall stored: Fields, proposed: Fields ::
      Resolved(os, ms, stored, proposed, CreatedAt) == if CreatedAt in stored then Some(stored[CreatedAt]) else None
  }

  /**
   A conflicting row always keeps its `created_at` iff the conflict is ignored altogether, or no
   option overwrites it without a later one assigning it again.
   */
  lemma KeepsCreatedAtIff(ms: seq<Fields>, os: seq<ConflictOption>)
    ensures KeepsCreatedAt(ms, os) <==> DoNothing in os || forall i :: !OverwritesAt(ms, os, i)
  {
    CreatedAtAssignment(ms, os);
    var u := Evaluate(ms, os);
    if DoNothing !in os && CreatedAt in u && !Keeps(u[CreatedAt]) {
      OverwritingIsSeen(ms, os);
    } else if DoNothing !in os && CreatedAt in u {
      KeepingIsUnseen(ms, os);
    }
  }

  /** Two rows on which an overwriting assignment shows. */
  lemma OverwritingIsSeen(ms: seq<Fields>, os: seq<ConflictOption>)
    requires DoNothing !in os && CreatedAt in Evaluate(ms, os) && !Keeps(Evaluate(ms, os)[CreatedAt])
    ensures !KeepsCreatedAt(ms, os)
  {
    var earlier: Fields, later: Fields := map[CreatedAt := Time(0)], map[CreatedAt := Time(1)];
    assert Resolved(os, ms, earlier, later, CreatedAt) != Some(Time(0)) ||
           Resolved(os, ms, later, earlier, CreatedAt) != Some(Time(1));
  }

  lemma KeepingIsUnseen(ms: seq<Fields>, os: seq<ConflictOption>)
    requires CreatedAt in Evaluate(ms, os) && Keeps(Evaluate(ms, os)[CreatedAt])
    ensures KeepsCreatedAt(ms, os)
  {
    forall stored: Fields, proposed: Fields
      ensures Resolved(os, ms, stored, proposed, CreatedAt) ==
              if CreatedAt in stored then Some(stored[CreatedAt]) else None
    {
      assert CreatedAt in stored ==> KindOf(stored[CreatedAt]) == GoType(CreatedAt);
    }
  }

  // ------------------------------------------------------------------ sequences of calls

  /** An option that is not the raw new-values option and names only columns with typed setters. */
  predicate SparesCreatedAt(o: ConflictOption) {
    !o.ResolveWithNewValues? && (o.ResolveWith? ==> AllTyped(o.sets))
  }

  /**
   New values enter only through `UpdateNewValues`, and callbacks use only the typed setters: the
   update set they are given is not asked for `created_at`.
   */
  predicate OnlyTyped(call: UpsertCall) {
    && (call.OnConflict? ==> forall k :: 0 <= k < |call.options| ==> SparesCreatedAt(call.options[k]))
    && (call.Update? ==> AllTyped(call.sets))
  }

  lemma {:induction false} TypedCallsNeverOverwrite(ms: seq<Fields>, calls: seq<UpsertCall>)
    requires forall i :: 0 <= i < |calls| ==> OnlyTyped(calls[i])
    ensures forall i :: !OverwritesAt(ms, CollectedAll([], calls), i)
    decreases |calls|
  {
    if calls != [] {
      var n := |calls| - 1;
      var before, after := CollectedAll([], calls[..n]), CollectedAll([], calls);
      TypedCallsNeverOverwrite(ms, calls[..n]);
      forall i | 0 <= i < |after|
        ensures !OverwritesAt(ms, after, i)
      {
        TypedCallAdds(ms, before, calls[n], i);
      }
    }
  }

  /** One more typed call leaves nothing overwritten. */
  lemma TypedCallAdds(ms: seq<Fields>, before: seq<ConflictOption>, call: UpsertCall, i: nat)
    requires OnlyTyped(call) && forall k :: !OverwritesAt(ms, before, k)
    ensures !OverwritesAt(ms, Collected(before, call), i)
  {
    var after := Collected(before, call);
    if call.OnConflict? {
      assert i < |after| ==> SparesCreatedAt(after[i]);
    } else if i < |before| {
      assert !OverwritesAt(ms, before, i);
      assert forall j :: 0 <= j < |before| ==> after[j] == before[j];
    } else if call.UpdateNewValues? {
      assert after[|before| + 1] == KeepCreatedAt;
    }
  }

  /**
   For any sequence of upsert calls on a single or bulk create in which new values enter only
   through `UpdateNewValues` and callbacks use only typed setters, a conflicting row keeps its
   `created_at`.
   */
  lemma UpsertsKeepCreatedAt(ms: seq<Fields>, calls: seq<UpsertCall>)
    requires forall i :: 0 <= i < |calls| ==> OnlyTyped(calls[i])
    ensures KeepsCreatedAt(ms, CollectedAll([], calls))
  {
    TypedCallsNeverOverwrite(ms, calls);
    KeepsCreatedAtIff(ms, CollectedAll([], calls));
  }

  /** The raw option on its own overwrites `created_at`, and a later `UpdateNewValues` repairs it. */
  lemma RawNewValuesOverwrites(ms: seq<Fields>)
    requires Inserted(ms, CreatedAt)
    ensures !KeepsCreatedAt(ms, CollectedAll([], [OnConflict([ResolveWithNewValues])]))
    ensures KeepsCreatedAt(ms, CollectedAll([], [OnConflict([ResolveWithNewValues]), UpdateNewValues]))
  {
    var raw := [OnConflict([ResolveWithNewValues])];
    var repaired := [OnConflict([ResolveWithNewValues]), UpdateNewValues];
    assert CollectedAll([], raw) == [ResolveWithNewValues];
    assert repaired[..1] == raw;
    var os := CollectedAll([], repaired);
    assert os == [ResolveWithNewValues, ResolveWithNewValues, KeepCreatedAt];
    assert OverwritesAt(ms, [ResolveWithNewValues], 0);
    assert AssignedBy(ms, os[2], CreatedAt) == Some(Itself);
    KeepsCreatedAtIff(ms, CollectedAll([], raw));
    KeepsCreatedAtIff(ms, os);
  }

  /** So does a callback that names the column, even after `UpdateNewValues`. */
  lemma RawSetOverwrites(ms: seq<Fields>, t: int)
    ensures !KeepsCreatedAt(ms, CollectedAll([], [UpdateNewValues, Update([SetTo(CreatedAt, Time(t))])]))
    ensures !KeepsCreatedAt(ms, CollectedAll([], [OnConflict([ResolveWith([SetExcluded(CreatedAt)])])]))
  {
    var named := [UpdateNewValues, Update([SetTo(CreatedAt, Time(t))])];
    var first: seq<UpsertCall> := [UpdateNewValues];
    assert named[..1] == first && first[..0] == [];
    assert CollectedAll([], first) == [ResolveWithNewValues, KeepCreatedAt];
    var os := CollectedAll([], named);
    assert os == [ResolveWithNewValues, KeepCreatedAt, ResolveWith([SetTo(CreatedAt, Time(t))])];
    assert LastSet([SetTo(CreatedAt, Time(t))], CreatedAt) == Some(To(Time(t)));
    assert OverwritesAt(ms, os, 2);
    KeepsCreatedAtIff(ms, os);
    var excluded := [ResolveWith([SetExcluded(CreatedAt)])];
    assert CollectedAll([], [OnConflict(excluded)]) == excluded;
    assert LastSet([SetExcluded(CreatedAt)], CreatedAt) == Some(Excluded);
    assert OverwritesAt(ms, excluded, 0);
    KeepsCreatedAtIff(ms, excluded);
  }
}
