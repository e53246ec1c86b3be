/**
 The create builder of one account: filling in defaults, checking the mutation and
 turning it into the node that is returned and the row that is inserted.
 */
module AccountBuilder {
  import opened Options
  import opened AccountSchema

  /** Package-level defaults; a function-valued default may be left uninitialised. */
  datatype Defaults = Defaults(
    createdAt: Option<int>,
    updatedAt: Option<int>,
    credentials: Option<Document>,
    extra: Option<Document>,
    concurrency: int,
    priority: int,
    rateMultiplier: real,
    status: string,
    autoPauseOnExpired: bool,
    schedulable: bool)

  datatype Validators = Validators(
    name: string -> bool,
    platform: string -> bool,
    typ: string -> bool,
    status: string -> bool,
    sessionWindowStatus: string -> bool)

  datatype BuildError =
    | Uninitialized(f: Field)
    | MissingField(f: Field)
    | RejectedField(f: Field)

  /** Fields whose default is a function variable. */
  predicate HasFunctionDefault(f: Field) {
    f.CreatedAt? || f.UpdatedAt? || f.Credentials? || f.Extra?
  }

  /** Fields whose default is a constant. */
  predicate HasConstantDefault(f: Field) {
    f.Concurrency? || f.Priority? || f.RateMultiplier? || f.Status? || f.AutoPauseOnExpired? || f.Schedulable?
  }

  predicate Required(f: Field) {
    HasFunctionDefault(f) || HasConstantDefault(f) || f.Name? || f.Platform? || f.Type?
  }

  ghost predicate HasAllRequired(m: Fields) {
    forall f :: Required(f) ==> f in m
  }

  function DefaultOf(d: Defaults, f: Field): (v: Option<Value>)
    ensures v.Some? ==> KindOf(v.value) == GoType(f)
    ensures v.Some? ==> HasFunctionDefault(f) || HasConstantDefault(f)
    ensures HasConstantDefault(f) ==> v.Some?
  {
    match f
    case CreatedAt => if d.createdAt.Some? then Some(Time(d.createdAt.value)) else None
    case UpdatedAt => if d.updatedAt.Some? then Some(Time(d.updatedAt.value)) else None
    case Credentials => if d.credentials.Some? then Some(Json(d.credentials.value)) else None
    case Extra => if d.extra.Some? then Some(Json(d.extra.value)) else None
    case Concurrency => Some(Integer(d.concurrency))
    case Priority => Some(Integer(d.priority))
    case RateMultiplier => Some(Float(d.rateMultiplier))
    case Status => Some(Text(d.status))
    case AutoPauseOnExpired => Some(Bool(d.autoPauseOnExpired))
    case Schedulable => Some(Bool(d.schedulable))
    case _ => None
  }

  /** The number of fields `defaults` visits. */
  const DEFAULTED: nat := 10

  predicate IsDefaulted(f: Field) {
    HasFunctionDefault(f) || HasConstantDefault(f)
  }

  /** The place of a field in the order `defaults` visits them. */
  function PositionOf(f: Field): (i: nat)
    requires IsDefaulted(f)
    ensures i < DEFAULTED
  {
    match f
    case CreatedAt => 0
    case UpdatedAt => 1
    case Credentials => 2
    case Extra => 3
    case Concurrency => 4
    case Priority => 5
    case RateMultiplier => 6
    case Status => 7
    case AutoPauseOnExpired => 8
    case Schedulable => 9
  }

  /** The field visited at a place: the inverse of `PositionOf`. */
  function FieldAt(i: nat): (f: Field)
    requires i < DEFAULTED
    ensures IsDefaulted(f) && PositionOf(f) == i
  {
    match i
    case 0 => CreatedAt
    case 1 => UpdatedAt
    case 2 => Credentials
    case 3 => Extra
    case 4 => Concurrency
    case 5 => Priority
    case 6 => RateMultiplier
    case 7 => Status
    case 8 => AutoPauseOnExpired
    case _ => Schedulable
  }

  /** A field at which `defaults` gives up: unset, and without an initialised default. */
  predicate Blocks(d: Defaults, m: Fields, f: Field) {
    f !in m && DefaultOf(d, f).None?
  }

  /** How many fields `defaults` gets past, starting from the i-th. */
  function StopsAt(d: Defaults, m: Fields, i: nat): (n: nat)
    requires i <= DEFAULTED
    ensures i <= n <= DEFAULTED
    ensures forall j :: i <= j < n ==> !Blocks(d, m, FieldAt(j))
    ensures n < DEFAULTED ==> Blocks(d, m, FieldAt(n))
    decreases DEFAULTED - i
  {
    if i == DEFAULTED || Blocks(d, m, FieldAt(i)) then i else StopsAt(d, m, i + 1)
  }

  /** The error `defaults` returns. */
  function DefaultsError(d: Defaults, m: Fields): Option<BuildError> {
    var n := StopsAt(d, m, 0);
    if n == DEFAULTED then None else Some(Uninitialized(FieldAt(n)))
  }

  /** The mutation with the first n fields of the order set to their defaults where unset. */
  function Filled(d: Defaults, m: Fields, n: nat): Fields {
    m + map f | IsDefaulted(f) && PositionOf(f) < n && f !in m && DefaultOf(d, f).Some? :: DefaultOf(d, f).value
  }

  lemma FilledAt(d: Defaults, m: Fields, n: nat, g: Field)
    ensures var filled := IsDefaulted(g) && PositionOf(g) < n && g !in m && DefaultOf(d, g).Some?;
            && (g in Filled(d, m, n) <==> g in m || filled)
            && (g in m ==> Filled(d, m, n)[g] == m[g])
            && (filled ==> Filled(d, m, n)[g] == DefaultOf(d, g).value)
  {
  }

  lemma FilledStep(d: Defaults, m: Fields, i: nat)
    requires i < DEFAULTED
    ensures var f := FieldAt(i);
            Filled(d, m, i + 1) ==
            if f in m || DefaultOf(d, f).None? then Filled(d, m, i)
            else Filled(d, m, i)[f := DefaultOf(d, f).value]
    ensures FieldAt(i) in Filled(d, m, i) <==> FieldAt(i) in m
  {
    var f, now, next := FieldAt(i), Filled(d, m, i), Filled(d, m, i + 1);
    forall g
      ensures g in next <==> g in now || (g == f && DefaultOf(d, f).Some?)
      ensures g in now ==> next[g] == now[g]
      ensures g == f && g !in now && g in next ==> next[g] == DefaultOf(d, f).value
    {
      FilledStepAt(d, m, i, g);
    }
    FilledAt(d, m, i, f);
    OneMoreField(now, next, f, DefaultOf(d, f));
  }

  /** A field set that differs from another in at most one new field. */
  lemma OneMoreField(now: Fields, next: Fields, f: Field, v: Option<Value>)
    requires forall g :: g in next <==> g in now || (g == f && v.Some?)
    requires forall g :: g in now ==> next[g] == now[g]
    requires f !in now && f in next ==> v == Some(next[f])
    ensures next == if f in now || v.None? then now else now[f := v.value]
  {
  }

  lemma FilledStepAt(d: Defaults, m: Fields, i: nat, g: Field)
    requires i < DEFAULTED
    ensures var f, now, next := FieldAt(i), Filled(d, m, i), Filled(d, m, i + 1);
            && (g in next <==> g in now || (g == f && DefaultOf(d, f).Some?))
            && (g in now ==> next[g] == now[g])
            && (g == f && g !in now && g in next ==> next[g] == DefaultOf(d, f).value)
  {
    FilledAt(d, m, i, g);
    FilledAt(d, m, i + 1, g);
    if IsDefaulted(g) && PositionOf(g) == i {
      PositionIsUnique(g, i);
    }
  }

  lemma PositionIsUnique(f: Field, i: nat)
    requires IsDefaulted(f) && PositionOf(f) == i
    ensures f == FieldAt(i)
  {
  }

  /** The mutation `defaults` leaves behind, whether or not it stopped early. */
  function AfterDefaults(d: Defaults, m: Fields): Fields {
    Filled(d, m, StopsAt(d, m, 0))
  }

  function TextOf(m: Fields, f: Field): string
    requires f in m && GoType(f) == TextKind
  {
    m[f].text
  }

  function Missing(m: Fields, f: Field): Option<BuildError> {
    if f in m then None else Some(MissingField(f))
  }

  /** A required text field with a validator. */
  function MissingOrRejected(m: Fields, f: Field, accepts: string -> bool): Option<BuildError>
    requires GoType(f) == TextKind
  {
    if f !in m then Some(MissingField(f))
    else if accepts(TextOf(m, f)) then None else Some(RejectedField(f))
  }

  /** The first error among two checks made in this order. */
  function Then(first: Option<BuildError>, second: Option<BuildError>): Option<BuildError> {
    if first.Some? then first else second
  }

  /** Required fields and validators, in the order they are tried. */
  function Check(v: Validators, m: Fields): (err: Option<BuildError>)
    ensures err.None? <==> HasAllRequired(m) && ValidatorsPass(v, m)
  {
    Then(CheckFirst(v, m), CheckRest(v, m))
  }

  /** The checks up to the account's type. */
  function CheckFirst(v: Validators, m: Fields): Option<BuildError> {
    Then(Missing(m, CreatedAt),
    Then(Missing(m, UpdatedAt),
    Then(MissingOrRejected(m, Name, v.name),
    Then(MissingOrRejected(m, Platform, v.platform),
         MissingOrRejected(m, Type, v.typ)))))
  }

  function CheckRest(v: Validators, m: Fields): Option<BuildError> {
    Then(Missing(m, Credentials),
    Then(Missing(m, Extra),
    Then(Missing(m, Concurrency),
    Then(Missing(m, Priority),
    Then(Missing(m, RateMultiplier),
    Then(MissingOrRejected(m, Status, v.status),
    Then(Missing(m, AutoPauseOnExpired),
    Then(Missing(m, Schedulable),
         if SessionWindowStatus in m && !v.sessionWindowStatus(TextOf(m, SessionWindowStatus))
         then Some(RejectedField(SessionWindowStatus)) else None))))))))
  }

  /** Every validated field that is present passes its validator. */
  predicate ValidatorsPass(v: Validators, m: Fields) {
    && (Name in m ==> v.name(TextOf(m, Name)))
    && (Platform in m ==> v.platform(TextOf(m, Platform)))
    && (Type in m ==> v.typ(TextOf(m, Type)))
    && (Status in m ==> v.status(TextOf(m, Status)))
    && (SessionWindowStatus in m ==> v.sessionWindowStatus(TextOf(m, SessionWindowStatus)))
  }

  class AccountCreate {
    var mutation: Fields

    constructor (fields: Fields)
      ensures mutation == fields
    {
      mutation := fields;
    }

    method SetDefaults(d: Defaults) returns (err: Option<BuildError>)
      modifies this
      ensures mutation == AfterDefaults(d, old(mutation))
      ensures err == DefaultsError(d, old(mutation))
    {
      for i := 0 to DEFAULTED
        invariant mutation == Filled(d, old(mutation), i)
        invariant StopsAt(d, old(mutation), 0) == StopsAt(d, old(mutation), i)
      {
        var f := FieldAt(i);
        FilledStep(d, old(mutation), i);
        if f !in mutation {
          if DefaultOf(d, f).None? {
            return Some(Uninitialized(f));
          }
          mutation := mutation[f := DefaultOf(d, f).value];
        }
      }
      return None;
    }
  }

  /** `defaults` keeps every field already set, and whatever it adds is that field's default. */
  lemma DefaultsOnlyAdd(d: Defaults, m: Fields)
    ensures forall f :: f in m ==> f in AfterDefaults(d, m) && AfterDefaults(d, m)[f] == m[f]
    ensures forall f :: f in AfterDefaults(d, m) && f !in m ==>
              DefaultOf(d, f) == Some(AfterDefaults(d, m)[f])
  {
  }

  lemma DefaultsIdempotent(d: Defaults, m: Fields)
    ensures DefaultsError(d, AfterDefaults(d, m)) == DefaultsError(d, m)
    ensures AfterDefaults(d, AfterDefaults(d, m)) == AfterDefaults(d, m)
  {
    var once := AfterDefaults(d, m);
    var n := StopsAt(d, m, 0);
    if n < DEFAULTED {
      assert Blocks(d, once, FieldAt(n));
    }
    assert StopsAt(d, once, 0) == n;
    assert AfterDefaults(d, once).Keys == once.Keys;
  }

  /**
   A `defaults` error means that the mutation it leaves fails `check`, so a caller that drops
   the error still cannot get past the check on that mutation.
   */
  lemma DroppedDefaultsErrorIsCaught(d: Defaults, v: Validators, m: Fields)
    ensures DefaultsError(d, m).Some? ==> Check(v, AfterDefaults(d, m)).Some?
    ensures Check(v, AfterDefaults(d, m)).None? ==>
              DefaultsError(d, m).None? && HasAllRequired(AfterDefaults(d, m))
  {
    if DefaultsError(d, m).Some? {
      var f := FieldAt(StopsAt(d, m, 0));
      assert Required(f) && f !in AfterDefaults(d, m);
    }
  }

  /** After `defaults` has succeeded only the name, platform and type can still be missing. */
  lemma CheckAfterSuccessfulDefaults(d: Defaults, v: Validators, m: Fields)
    requires DefaultsError(d, m).None?
    ensures Check(v, AfterDefaults(d, m)).None? <==>
              Name in m && Platform in m && Type in m && ValidatorsPass(v, AfterDefaults(d, m))
  {
    OnlyThreeCanBeMissing(d, m);
  }

  lemma UndefaultedIsKept(d: Defaults, m: Fields, f: Field)
    requires !IsDefaulted(f)
    ensures f in AfterDefaults(d, m) <==> f in m
  {
    FilledAt(d, m, StopsAt(d, m, 0), f);
  }

  lemma ThreeAreKept(d: Defaults, m: Fields)
    ensures var after := AfterDefaults(d, m);
            (Name in after <==> Name in m) && (Platform in after <==> Platform in m) && (Type in after <==> Type in m)
  {
    UndefaultedIsKept(d, m, Name);
    UndefaultedIsKept(d, m, Platform);
    UndefaultedIsKept(d, m, Type);
  }

  lemma OnlyThreeCanBeMissing(d: Defaults, m: Fields)
    requires DefaultsError(d, m).None?
    ensures HasAllRequired(AfterDefaults(d, m)) <==> Name in m && Platform in m && Type in m
  {
    SuccessFillsAll(d, m);
    ThreeWithoutDefault(AfterDefaults(d, m));
    ThreeAreKept(d, m);
  }

  /** The required fields besides those with a default. */
  lemma ThreeWithoutDefault(m: Fields)
    requires forall f :: IsDefaulted(f) ==> f in m
    ensures HasAllRequired(m) <==> Name in m && Platform in m && Type in m
  {
    assert forall f :: Required(f) <==> IsDefaulted(f) || f == Name || f == Platform || f == Type;
  }

  lemma SuccessFillsAll(d: Defaults, m: Fields)
    requires DefaultsError(d, m).None?
    ensures forall f :: IsDefaulted(f) ==> f in AfterDefaults(d, m)
  {
    forall f | IsDefaulted(f)
      ensures f in AfterDefaults(d, m)
    {
      assert FieldAt(PositionOf(f)) == f;
    }
  }
}
