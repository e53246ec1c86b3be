/**
 The account table as the generated code sees it: its columns, the Go type of each field,
 the values a field can hold and the field set of a mutation.
 */
module AccountSchema {

  /** The columns of the account table other than the primary key. */
  datatype Field =
    | CreatedAt | UpdatedAt | DeletedAt | Name | Notes | Platform | Type | Credentials | Extra
    | ProxyID | ProxyFallbackOriginID | Concurrency | LoadFactor | Priority | RateMultiplier
    | Status | ErrorMessage | LastUsedAt | ExpiresAt | AutoPauseOnExpired | Schedulable
    | RateLimitedAt | RateLimitResetAt | OverloadUntil | TempUnschedulableUntil
    | TempUnschedulableReason | SessionWindowStart | SessionWindowEnd | SessionWindowStatus

  /** A decoded JSON value, as kept in the `credentials` and `extra` columns. */
  datatype Document =
    | JsonNull
    | JsonBool(b: bool)
    | JsonNumber(n: real)
    | JsonString(s: string)
    | JsonArray(items: seq<Document>)
    | JsonObject(members: map<string, Document>)

  datatype Value =
    | Time(instant: int)
    | Text(text: string)
    | Json(document: Document)
    | Integer(i: int)
    | Float(r: real)
    | Bool(b: bool)

  datatype Kind = TimeKind | TextKind | JsonKind | IntegerKind | FloatKind | BoolKind

  function KindOf(v: Value): Kind {
    match v
    case Time(_) => TimeKind
    case Text(_) => TextKind
    case Json(_) => JsonKind
    case Integer(_) => IntegerKind
    case Float(_) => FloatKind
    case Bool(_) => BoolKind
  }

  /** The static Go type of the field in the Account struct and in the mutation's accessor. */
  function GoType(f: Field): Kind {
    match f
    case CreatedAt | UpdatedAt | DeletedAt | LastUsedAt | ExpiresAt | RateLimitedAt
       | RateLimitResetAt | OverloadUntil | TempUnschedulableUntil
       | SessionWindowStart | SessionWindowEnd => TimeKind
    case Name | Notes | Platform | Type | Status | ErrorMessage
       | TempUnschedulableReason | SessionWindowStatus => TextKind
    case Credentials | Extra => JsonKind
    case ProxyID | ProxyFallbackOriginID | Concurrency | LoadFactor | Priority => IntegerKind
    case RateMultiplier => FloatKind
    case AutoPauseOnExpired | Schedulable => BoolKind
  }

  /** Fields held through a pointer in the Account struct, so that unset reads as nil. */
  predicate IsPointer(f: Field) {
    match f
    case DeletedAt | Notes | ProxyID | ProxyFallbackOriginID | LoadFactor | ErrorMessage
       | LastUsedAt | ExpiresAt | RateLimitedAt | RateLimitResetAt | OverloadUntil
       | TempUnschedulableUntil | TempUnschedulableReason | SessionWindowStart
       | SessionWindowEnd | SessionWindowStatus => true
    case _ => false
  }

  predicate WellTyped(m: map<Field, Value>) {
    forall f :: f in m ==> KindOf(m[f]) == GoType(f)
  }

  /** The fields set on a mutation; Go's static types make every such map well typed. */
  type Fields = m: map<Field, Value> | WellTyped(m) witness map[]
}
