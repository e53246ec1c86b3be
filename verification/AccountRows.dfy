/**
 Writing an account row and reading it back: `createSpec` on the way in, `scanValues` and
 `assignValues` on the way out. The column types appear three times in the source, once in each
 of these operations, and each table below follows its own operation.
 */
module AccountRows {
  import opened Options
  import opened AccountSchema

  /** How one field of the Account struct is held. */
  datatype Cell = Plain(v: Value) | Nil | Pointer(v: Value)

  datatype Account = Account(id: int, cells: map<Field, Cell>, selected: map<string, Holder>)

  datatype Column = IdColumn | FieldColumn(f: Field) | OtherColumn(name: string)

  /** A value as stored in the database. */
  datatype Stored =
    | Null
    | StoredTime(instant: int)
    | StoredText(text: string)
    | StoredBytes(bytes: seq<bv8>)
    | StoredInt(i: int)
    | StoredFloat(r: real)
    | StoredBool(b: bool)

  datatype HolderKind = NullTime | NullString | ByteSlice | NullInt64 | NullFloat64 | NullBool | UnknownType

  /** A scan destination together with what the driver put into it. */
  datatype Holder = Holder(kind: HolderKind, content: Stored)

  /** The JSON codec. Decoding starts from the document already there, which a JSON object adds to. */
  datatype Codec = Codec(encode: Document -> seq<bv8>, decode: (Document, seq<bv8>) -> Option<Document>)
  {
    /** The encoded document decodes to itself; an empty text is not decoded and reads as null. */
    predicate ReadsBack(d: Document) {
      if encode(d) == [] then d == JsonNull else decode(JsonNull, encode(d)) == Some(d)
    }

    /** It also does so when the document is already there. */
    predicate Keeps(d: Document) {
      ReadsBack(d) && (encode(d) == [] || decode(d, encode(d)) == Some(d))
    }
  }

  datatype ReadError =
    | LengthMismatch
    | ScanFailed(c: Column)
    | UnexpectedType(c: Column)
    | BadJson(c: Column)

  datatype Result<+T> = Ok(value: T) | Err(error: ReadError)

  function ZeroValue(k: Kind): Value {
    match k
    case TimeKind => Time(0)
    case TextKind => Text("")
    case JsonKind => Json(JsonNull)
    case IntegerKind => Integer(0)
    case FloatKind => Float(0.0)
    case BoolKind => Bool(false)
  }

  function ZeroCell(f: Field): Cell {
    if IsPointer(f) then Nil else Plain(ZeroValue(GoType(f)))
  }

  function SetCell(f: Field, v: Value): Cell {
    if IsPointer(f) then Pointer(v) else Plain(v)
  }

  /** `&Account{}`. */
  function NewAccount(): Account {
    Account(0, map f: Field | true :: ZeroCell(f), map[])
  }

  // -------------------------------------------------------------------- createSpec

  /** The type tag `createSpec` passes along with each column. */
  function SpecKind(f: Field): Kind {
    match f
    case CreatedAt => TimeKind
    case UpdatedAt => TimeKind
    case DeletedAt => TimeKind
    case Name => TextKind
    case Notes => TextKind
    case Platform => TextKind
    case Type => TextKind
    case Credentials => JsonKind
    case Extra => JsonKind
    case ProxyID => IntegerKind
    case ProxyFallbackOriginID => IntegerKind
    case Concurrency => IntegerKind
    case LoadFactor => IntegerKind
    case Priority => IntegerKind
    case RateMultiplier => FloatKind
    case Status => TextKind
    case ErrorMessage => TextKind
    case LastUsedAt => TimeKind
    case ExpiresAt => TimeKind
    case AutoPauseOnExpired => BoolKind
    case Schedulable => BoolKind
    case RateLimitedAt => TimeKind
    case RateLimitResetAt => TimeKind
    case OverloadUntil => TimeKind
    case TempUnschedulableUntil => TimeKind
    case TempUnschedulableReason => TextKind
    case SessionWindowStart => TimeKind
    case SessionWindowEnd => TimeKind
    case SessionWindowStatus => TextKind
  }

  datatype TypedValue = TypedValue(kind: Kind, v: Value)

  /** The insert specification: typed columns, the proxy edge and the key the driver fills in. */
  datatype Spec = Spec(columns: map<Field, TypedValue>, proxyEdge: seq<int>, idValue: Option<int>)

  /** `mutation.ProxyIDs()`: at most one key. */
  function ProxyIDs(m: Fields): (ids: seq<int>)
    ensures |ids| <= 1
  {
    if ProxyID in m then [m[ProxyID].i] else []
  }

  /** The insert specification: the proxy key travels as an edge, every other field as a column. */
  function SpecOf(m: Fields): Spec {
    Spec(map f | f in m && f != ProxyID :: TypedValue(SpecKind(f), m[f]), ProxyIDs(m), None)
  }

  /** The node `createSpec` returns, before it has an ID. */
  function NodeOf(m: Fields): Account {
    var proxies := ProxyIDs(m);
    NewAccount().(cells := map f: Field | true ::
      if f == ProxyID then (if |proxies| > 0 then Pointer(Integer(proxies[0])) else Nil)
      else if f in m then SetCell(f, m[f])
      else ZeroCell(f))
  }

  // -------------------------------------------------------------------- the stored row

  /** What the driver stores for a typed value; a tag that does not fit the value is refused. */
  function Encode(codec: Codec, tv: TypedValue): Option<Stored> {
    match (tv.kind, tv.v)
    case (TimeKind, Time(t)) => Some(StoredTime(t))
    case (TextKind, Text(s)) => Some(StoredText(s))
    case (JsonKind, Json(d)) => Some(StoredBytes(codec.encode(d)))
    case (IntegerKind, Integer(i)) => Some(StoredInt(i))
    case (FloatKind, Float(r)) => Some(StoredFloat(r))
    case (BoolKind, Bool(b)) => Some(StoredBool(b))
    case _ => None
  }

  /** The stored content of a column after inserting `spec` under key `id`. */
  function StoredCell(codec: Codec, spec: Spec, id: int, c: Column): Option<Stored> {
    match c
    case IdColumn => Some(StoredInt(id))
    case OtherColumn(_) => Some(Null)
    case FieldColumn(f) =>
      if f == ProxyID then Some(if |spec.proxyEdge| > 0 then StoredInt(spec.proxyEdge[0]) else Null)
      else if f in spec.columns then Encode(codec, spec.columns[f])
      else Some(Null)
  }

  // -------------------------------------------------------------------- scanValues

  /** The scan destination `scanValues` allocates for a column. */
  function ScanKind(c: Column): HolderKind {
    match c
    case FieldColumn(Credentials) | FieldColumn(Extra) => ByteSlice
    case FieldColumn(AutoPauseOnExpired) | FieldColumn(Schedulable) => NullBool
    case FieldColumn(RateMultiplier) => NullFloat64
    case IdColumn | FieldColumn(ProxyID) | FieldColumn(ProxyFallbackOriginID) | FieldColumn(Concurrency)
       | FieldColumn(LoadFactor) | FieldColumn(Priority) => NullInt64
    case FieldColumn(Name) | FieldColumn(Notes) | FieldColumn(Platform) | FieldColumn(Type)
       | FieldColumn(Status) | FieldColumn(ErrorMessage) | FieldColumn(TempUnschedulableReason)
       | FieldColumn(SessionWindowStatus) => NullString
    case FieldColumn(CreatedAt) | FieldColumn(UpdatedAt) | FieldColumn(DeletedAt) | FieldColumn(LastUsedAt)
       | FieldColumn(ExpiresAt) | FieldColumn(RateLimitedAt) | FieldColumn(RateLimitResetAt)
       | FieldColumn(OverloadUntil) | FieldColumn(TempUnschedulableUntil)
       | FieldColumn(SessionWindowStart) | FieldColumn(SessionWindowEnd) => NullTime
    case OtherColumn(_) => UnknownType
  }

  method ScanValues(columns: seq<Column>) returns (values: array<Holder>)
    ensures fresh(values) && values.Length == |columns|
    ensures forall i :: 0 <= i < |columns| ==> values[i] == Holder(ScanKind(columns[i]), Null)
  {
    values := new Holder[|columns|](_ => Holder(UnknownType, Null));
    for i := 0 to |columns|
      invariant forall j :: 0 <= j < i ==> values[j] == Holder(ScanKind(columns[j]), Null)
    {
      values[i] := Holder(ScanKind(columns[i]), Null);
    }
  }

  /** The driver's side of a scan: which destinations accept which stored values. */
  predicate Accepts(k: HolderKind, s: Stored) {
    match k
    case NullTime => s.Null? || s.StoredTime?
    case NullString => s.Null? || s.StoredText?
    case ByteSlice => s.Null? || s.StoredBytes?
    case NullInt64 => s.Null? || s.StoredInt?
    case NullFloat64 => s.Null? || s.StoredFloat?
    case NullBool => s.Null? || s.StoredBool?
    case UnknownType => true
  }

  // -------------------------------------------------------------------- assignValues

  /** The destination type `assignValues` asserts for a field. */
  function AssignKind(f: Field): HolderKind {
    match f
    case CreatedAt => NullTime
    case UpdatedAt => NullTime
    case DeletedAt => NullTime
    case Name => NullString
    case Notes => NullString
    case Platform => NullString
    case Type => NullString
    case Credentials => ByteSlice
    case Extra => ByteSlice
    case ProxyID => NullInt64
    case ProxyFallbackOriginID => NullInt64
    case Concurrency => NullInt64
    case LoadFactor => NullInt64
    case Priority => NullInt64
    case RateMultiplier => NullFloat64
    case Status => NullString
    case ErrorMessage => NullString
    case LastUsedAt => NullTime
    case ExpiresAt => NullTime
    case AutoPauseOnExpired => NullBool
    case Schedulable => NullBool
    case RateLimitedAt => NullTime
    case RateLimitResetAt => NullTime
    case OverloadUntil => NullTime
    case TempUnschedulableUntil => NullTime
    case TempUnschedulableReason => NullString
    case SessionWindowStart => NullTime
    case SessionWindowEnd => NullTime
    case SessionWindowStatus => NullString
  }

  /** The Go value a filled scalar destination carries. */
  function Carried(s: Stored): Value
    requires !s.Null? && !s.StoredBytes?
  {
    match s
    case StoredTime(t) => Time(t)
    case StoredText(x) => Text(x)
    case StoredInt(i) => Integer(i)
    case StoredFloat(r) => Float(r)
    case StoredBool(b) => Bool(b)
  }

  /** The document a field holds before it is assigned. */
  function DocumentIn(a: Account, f: Field): Document {
    if f in a.cells && a.cells[f].Plain? && a.cells[f].v.Json? then a.cells[f].v.document else JsonNull
  }

  /** One iteration of `assignValues`. */
  function AssignColumn(codec: Codec, a: Account, c: Column, h: Holder): Result<Account> {
    match c
    case IdColumn =>
      if h.kind != NullInt64 then Err(UnexpectedType(c))
      else Ok(a.(id := if h.content.StoredInt? then h.content.i else 0))
    case OtherColumn(name) => Ok(a.(selected := a.selected[name := h]))
    case FieldColumn(f) =>
      if h.kind != AssignKind(f) then Err(UnexpectedType(c))
      else if h.content.Null? then Ok(a)
      else if h.content.StoredBytes? then
        if h.content.bytes == [] then Ok(a)
        else match codec.decode(DocumentIn(a, f), h.content.bytes)
             case None => Err(BadJson(c))
             case Some(d) => Ok(a.(cells := a.cells[f := SetCell(f, Json(d))]))
      else Ok(a.(cells := a.cells[f := SetCell(f, Carried(h.content))]))
  }

  /** Assigning a list of columns left to right, stopping at the first error. */
  function AssignAll(codec: Codec, a: Account, columns: seq<Column>, values: seq<Holder>): Result<Account>
    requires |columns| <= |values|
    decreases |columns|
  {
    if columns == [] then Ok(a)
    else
      match AssignColumn(codec, a, columns[0], values[0])
      case Err(e) => Err(e)
      case Ok(next) => AssignAll(codec, next, columns[1..], values[1..])
  }

  lemma {:induction false} AssignAllSnoc(codec: Codec, a: Account, columns: seq<Column>, values: seq<Holder>, i: nat)
    requires i < |columns| <= |values|
    ensures AssignAll(codec, a, columns[..i + 1], values[..i + 1]) ==
            match AssignAll(codec, a, columns[..i], values[..i])
            case Err(e) => Err(e)
            case Ok(next) => AssignColumn(codec, next, columns[i], values[i])
    ensures AssignAll(codec, a, columns[..i], values[..i]).Err? ==>
              AssignAll(codec, a, columns, values) == AssignAll(codec, a, columns[..i], values[..i])
    decreases i
  {
    if i == 0 {
      assert columns[..1][1..] == [];
    } else {
      assert columns[..i + 1][1..] == columns[1..][..i] && values[..i + 1][1..] == values[1..][..i];
      assert columns[..i][1..] == columns[1..][..i - 1] && values[..i][1..] == values[1..][..i - 1];
      match AssignColumn(codec, a, columns[0], values[0])
      case Err(e) =>
      case Ok(next) => AssignAllSnoc(codec, next, columns[1..], values[1..], i - 1);
    }
  }

  /** The record when a column fails: all columns before it are assigned, and it is not. */
  ghost predicate StoppedAt(codec: Codec, a: Account, columns: seq<Column>, values: seq<Holder>,
                            b: Account, e: ReadError)
    requires |columns| <= |values|
  {
    exists n :: 0 <= n < |columns| && AssignAll(codec, a, columns[..n], values[..n]) == Ok(b) &&
                AssignColumn(codec, b, columns[n], values[n]) == Err(e)
  }

  class AccountRecord {
    var ID: int
    var cells: map<Field, Cell>
    var selected: map<string, Holder>

    constructor ()
      ensures View() == NewAccount()
    {
      ID := 0;
      cells := NewAccount().cells;
      selected := map[];
    }

    function View(): Account
      reads this
    {
      Account(ID, cells, selected)
    }

    /** Fills the record from scanned values; on an error the columns before it stay assigned. */
    method AssignValues(codec: Codec, columns: seq<Column>, values: seq<Holder>) returns (err: Option<ReadError>)
      modifies this
      ensures |values| < |columns| ==> err == Some(LengthMismatch) && View() == old(View())
      ensures |columns| <= |values| ==>
                match AssignAll(codec, old(View()), columns, values)
                case Ok(a) => err == None && View() == a
                case Err(e) => err == Some(e) && StoppedAt(codec, old(View()), columns, values, View(), e)
    {
      if |values| < |columns| {
        return Some(LengthMismatch);
      }
      for i := 0 to |columns|
        invariant AssignAll(codec, old(View()), columns[..i], values[..i]) == Ok(View())
      {
        AssignAllSnoc(codec, old(View()), columns, values, i);
        match AssignColumn(codec, View(), columns[i], values[i])
        case Err(e) =>
          if i + 1 < |columns| {
            AssignAllSnoc(codec, old(View()), columns, values, i + 1);
          } else {
            AssignAllPrefix(codec, old(View()), columns, values);
          }
          return Some(e);
        case Ok(next) =>
          ID, cells, selected := next.id, next.cells, next.selected;
      }
      AssignAllPrefix(codec, old(View()), columns, values);
      return None;
    }
  }

  /** Values beyond the columns are not looked at. */
  lemma {:induction false} AssignAllPrefix(codec: Codec, a: Account, columns: seq<Column>, values: seq<Holder>)
    requires |columns| <= |values|
    ensures columns[..|columns|] == columns
    ensures AssignAll(codec, a, columns, values[..|columns|]) == AssignAll(codec, a, columns, values)
    decreases |columns|
  {
    if columns != [] {
      assert values[..|columns|][1..] == values[1..][..|columns| - 1];
      match AssignColumn(codec, a, columns[0], values[0])
      case Err(e) =>
      case Ok(next) => AssignAllPrefix(codec, next, columns[1..], values[1..]);
    }
  }

  // -------------------------------------------------------------------- the round trip

  /** What reading one column of a stored row puts into its destination. */
  function ScanColumn(codec: Codec, spec: Spec, id: int, c: Column): Result<Holder> {
    match StoredCell(codec, spec, id, c)
    case None => Err(ScanFailed(c))
    case Some(s) => if Accepts(ScanKind(c), s) then Ok(Holder(ScanKind(c), s)) else Err(ScanFailed(c))
  }

  /** Scanning the columns of a stored row into freshly allocated destinations. */
  function ScanRow(codec: Codec, spec: Spec, id: int, columns: seq<Column>): (r: Result<seq<Holder>>)
    ensures r.Ok? ==> |r.value| == |columns|
  {
    if columns == [] then Ok([])
    else
      match ScanColumn(codec, spec, id, columns[0])
      case Err(e) => Err(e)
      case Ok(h) =>
        match ScanRow(codec, spec, id, columns[1..])
        case Err(e) => Err(e)
        case Ok(hs) => Ok([h] + hs)
  }

  /** Reading the stored row back into a new account. */
  function ReadRow(codec: Codec, spec: Spec, id: int, a: Account, columns: seq<Column>): Result<Account> {
    match ScanRow(codec, spec, id, columns)
    case Err(e) => Err(e)
    case Ok(hs) => AssignAll(codec, a, columns, hs)
  }

  /** The three column tables of the source agree with the Go struct. */
  lemma TablesAgree(f: Field)
    ensures SpecKind(f) == GoType(f)
    ensures ScanKind(FieldColumn(f)) == AssignKind(f)
    ensures AssignKind(f) == match GoType(f)
                             case TimeKind => NullTime
                             case TextKind => NullString
                             case JsonKind => ByteSlice
                             case IntegerKind => NullInt64
                             case FloatKind => NullFloat64
                             case BoolKind => NullBool
  {
  }

  /** What the row stores for a field, in terms of the value the mutation has for it. */
  function Image(codec: Codec, v: Value): Stored {
    match v
    case Time(t) => StoredTime(t)
    case Text(x) => StoredText(x)
    case Json(d) => StoredBytes(codec.encode(d))
    case Integer(i) => StoredInt(i)
    case Float(r) => StoredFloat(r)
    case Bool(b) => StoredBool(b)
  }

  lemma FieldIsStored(codec: Codec, m: Fields, id: int, f: Field)
    ensures StoredCell(codec, SpecOf(m), id, FieldColumn(f)) ==
            Some(if f in m then Image(codec, m[f]) else Null)
    ensures NodeOf(m).cells[f] == if f in m then SetCell(f, m[f]) else ZeroCell(f)
  {
    TablesAgree(f);
    if f in m {
      assert KindOf(m[f]) == GoType(f);
    }
  }

  lemma FieldIsAssigned(codec: Codec, a: Account, f: Field, v: Value)
    requires KindOf(v) == GoType(f) && (v.Json? ==> codec.Keeps(v.document))
    requires f in a.cells && (a.cells[f] == ZeroCell(f) || a.cells[f] == SetCell(f, v))
    ensures Accepts(ScanKind(FieldColumn(f)), Image(codec, v))
    ensures AssignColumn(codec, a, FieldColumn(f), Holder(ScanKind(FieldColumn(f)), Image(codec, v))) ==
            Ok(a.(cells := a.cells[f := SetCell(f, v)]))
  {
    TablesAgree(f);
    assert a.cells[f] == SetCell(f, v) ==> a.cells[f := SetCell(f, v)] == a.cells;
  }

  /** The codec keeps the documents of a mutation. */
  ghost predicate KeepsDocuments(codec: Codec, m: Fields) {
    forall f :: f in m && m[f].Json? ==> codec.Keeps(m[f].document)
  }

  /** Such a codec exists for every mutation, as it has at most two documents. */
  lemma SomeCodecKeeps(m: Fields) returns (codec: Codec)
    ensures KeepsDocuments(codec, m)
  {
    var first := if Credentials in m then m[Credentials].document else JsonNull;
    var second := if Extra in m then m[Extra].document else JsonNull;
    codec := Codec(d => if d == first then [1] else [2], (_, text) => Some(if text == [1] then first else second));
    forall f | f in m && m[f].Json?
      ensures codec.Keeps(m[f].document)
    {
      assert KindOf(m[f]) == GoType(f);
    }
  }

  /** One column: no type error on either side, and the field becomes that of the saved node. */
  lemma ColumnRoundTrip(codec: Codec, m: Fields, id: int, f: Field, a: Account)
    requires KeepsDocuments(codec, m)
    requires f in a.cells && (a.cells[f] == ZeroCell(f) || a.cells[f] == NodeOf(m).cells[f])
    ensures var h := ScanColumn(codec, SpecOf(m), id, FieldColumn(f));
            h.Ok? &&
            AssignColumn(codec, a, FieldColumn(f), h.value) ==
            Ok(a.(cells := a.cells[f := NodeOf(m).cells[f]]))
  {
    FieldIsStored(codec, m, id, f);
    if f in m {
      FieldIsAssigned(codec, a, f, m[f]);
    } else {
      TablesAgree(f);
      assert a.cells[f := NodeOf(m).cells[f]] == a.cells;
    }
  }

  /** Every cell is still zero or already that of the saved node. */
  ghost predicate HalfRead(m: Fields, a: Account) {
    forall f: Field :: f in a.cells && (a.cells[f] == ZeroCell(f) || a.cells[f] == NodeOf(m).cells[f])
  }

  /**
   Reading any list of columns, in any order and with repetitions, of the row stored for a
   mutation succeeds; it gives every listed field the value it has on the node that the create
   returned and leaves every other field as it was.
   */
  lemma {:induction false} ReadBackColumns(codec: Codec, m: Fields, id: int, columns: seq<Column>, a: Account)
    requires KeepsDocuments(codec, m) && HalfRead(m, a)
    ensures var r := ReadRow(codec, SpecOf(m), id, a, columns);
            && r.Ok?
            && r.value.id == (if IdColumn in columns then id else a.id)
            && (forall f: Field :: f in r.value.cells && r.value.cells[f] ==
                  if FieldColumn(f) in columns then NodeOf(m).cells[f] else a.cells[f])
    decreases |columns|
  {
    if columns != [] {
      assert columns == [columns[0]] + columns[1..];
      ReadRowHead(codec, m, id, a, columns);
      ColumnReadBack(codec, m, id, columns[0], a);
      ReadBackColumns(codec, m, id, columns[1..], AfterColumn(m, id, columns[0], a));
    }
  }

  /** The account after reading back column `c`. */
  function AfterColumn(m: Fields, id: int, c: Column, a: Account): Account {
    match c
    case IdColumn => a.(id := id)
    case OtherColumn(name) => a.(selected := a.selected[name := Holder(UnknownType, Null)])
    case FieldColumn(f) => a.(cells := a.cells[f := NodeOf(m).cells[f]])
  }

  lemma ColumnReadBack(codec: Codec, m: Fields, id: int, c: Column, a: Account)
    requires KeepsDocuments(codec, m) && HalfRead(m, a)
    ensures var h := ScanColumn(codec, SpecOf(m), id, c);
            h.Ok? && AssignColumn(codec, a, c, h.value) == Ok(AfterColumn(m, id, c, a))
    ensures HalfRead(m, AfterColumn(m, id, c, a))
  {
    if c.FieldColumn? {
      ColumnRoundTrip(codec, m, id, c.f, a);
    }
  }

  /** Scanning a stored row never fails: every destination accepts what its column stores. */
  lemma {:induction false} ScanSucceeds(codec: Codec, m: Fields, id: int, columns: seq<Column>)
    ensures ScanRow(codec, SpecOf(m), id, columns).Ok?
  {
    if columns != [] {
      ScanSucceeds(codec, m, id, columns[1..]);
      if columns[0].FieldColumn? {
        FieldIsAccepted(codec, m, id, columns[0].f);
      }
    }
  }

  lemma FieldIsAccepted(codec: Codec, m: Fields, id: int, f: Field)
    ensures ScanColumn(codec, SpecOf(m), id, FieldColumn(f)) ==
            Ok(Holder(ScanKind(FieldColumn(f)), if f in m then Image(codec, m[f]) else Null))
  {
    FieldIsStored(codec, m, id, f);
    TablesAgree(f);
    if f in m {
      assert KindOf(m[f]) == GoType(f);
    }
  }

  /** Scanning then assigning a row is the same as doing both column by column. */
  lemma ReadRowHead(codec: Codec, m: Fields, id: int, a: Account, columns: seq<Column>)
    requires columns != []
    ensures var h := ScanColumn(codec, SpecOf(m), id, columns[0]);
            && h.Ok?
            && ReadRow(codec, SpecOf(m), id, a, columns) ==
               match AssignColumn(codec, a, columns[0], h.value)
               case Err(e) => Err(e)
               case Ok(next) => ReadRow(codec, SpecOf(m), id, next, columns[1..])
  {
    ScanSucceeds(codec, m, id, columns);
    var h := ScanColumn(codec, SpecOf(m), id, columns[0]).value;
    var hs := ScanRow(codec, SpecOf(m), id, columns[1..]).value;
    assert ([h] + hs)[0] == h && ([h] + hs)[1..] == hs;
  }

  /** Reading all columns, in any order, gives back exactly the node that `Save` returned. */
  lemma CreateReadRoundTrip(codec: Codec, m: Fields, id: int, columns: seq<Column>)
    requires KeepsDocuments(codec, m)
    requires IdColumn in columns && forall f: Field :: FieldColumn(f) in columns
    ensures var r := ReadRow(codec, SpecOf(m), id, NewAccount(), columns);
            r.Ok? && r.value.id == id && r.value.cells == NodeOf(m).cells
    ensures forall f: Field :: IsPointer(f) && f !in m ==> NodeOf(m).cells[f] == Nil
  {
    ReadBackColumns(codec, m, id, columns, NewAccount());
  }

  // -------------------------------------------------------------------- exactly which rows read back

  /** What reading a field of a stored row leaves in a cell that was zero; none if it does not decode. */
  function ReadCell(codec: Codec, m: Fields, f: Field): Option<Cell> {
    if f !in m then Some(ZeroCell(f))
    else if !m[f].Json? then Some(SetCell(f, m[f]))
    else
      var text := codec.encode(m[f].document);
      if text == [] then Some(ZeroCell(f))
      else
        match codec.decode(JsonNull, text)
        case None => None
        case Some(d) => Some(SetCell(f, Json(d)))
  }

  lemma ColumnRead(codec: Codec, m: Fields, id: int, f: Field, a: Account)
    requires f in a.cells && a.cells[f] == ZeroCell(f)
    ensures var h := ScanColumn(codec, SpecOf(m), id, FieldColumn(f));
            && h.Ok?
            && AssignColumn(codec, a, FieldColumn(f), h.value) ==
               match ReadCell(codec, m, f)
               case None => Err(BadJson(FieldColumn(f)))
               case Some(cell) => Ok(a.(cells := a.cells[f := cell]))
  {
    FieldIsAccepted(codec, m, id, f);
    TablesAgree(f);
    assert a.cells[f := ZeroCell(f)] == a.cells;
    if f in m {
      assert KindOf(m[f]) == GoType(f);
    }
  }

  predicate NoRepeats(columns: seq<Column>) {
    forall i, j :: 0 <= i < j < |columns| ==> columns[i] != columns[j]
  }

  /** For any codec: columns that are not repeated are read independently of each other. */
  lemma {:induction false} ReadIndependently(codec: Codec, m: Fields, id: int, columns: seq<Column>, a: Account)
    requires NoRepeats(columns) && forall f: Field :: f in a.cells
    requires forall f: Field :: FieldColumn(f) in columns ==> a.cells[f] == ZeroCell(f)
    ensures var r := ReadRow(codec, SpecOf(m), id, a, columns);
            && (r.Ok? <==> forall f: Field :: FieldColumn(f) in columns ==> ReadCell(codec, m, f).Some?)
            && (r.Ok? ==> r.value.id == if IdColumn in columns then id else a.id)
            && (r.Ok? ==> (forall f: Field ::
                  f in r.value.cells && r.value.cells[f] ==
                  if FieldColumn(f) in columns then ReadCell(codec, m, f).value else a.cells[f]))
    decreases |columns|
  {
    if columns != [] {
      var c, rest := columns[0], columns[1..];
      assert columns == [c] + rest && c !in rest;
      ReadRowHead(codec, m, id, a, columns);
      match c
      case IdColumn =>
        ReadIndependently(codec, m, id, rest, a.(id := id));
      case OtherColumn(name) =>
        ReadIndependently(codec, m, id, rest, a.(selected := a.selected[name := Holder(UnknownType, Null)]));
      case FieldColumn(f) =>
        ColumnRead(codec, m, id, f, a);
        if ReadCell(codec, m, f).Some? {
          ReadIndependently(codec, m, id, rest, a.(cells := a.cells[f := ReadCell(codec, m, f).value]));
        }
    }
  }

  lemma ReadsBackIff(codec: Codec, m: Fields, f: Field)
    ensures ReadCell(codec, m, f) == Some(NodeOf(m).cells[f]) <==>
              (f in m && m[f].Json? ==> codec.ReadsBack(m[f].document))
  {
    FieldIsStored(codec, m, 0, f);
    if f in m {
      assert KindOf(m[f]) == GoType(f);
    }
  }

  /**
   For any codec at all: reading all columns once, in any order, gives back the node that `Save`
   returned iff the codec reads back every document of the mutation.
   */
  lemma CreateReadRoundTripIff(codec: Codec, m: Fields, id: int, columns: seq<Column>)
    requires NoRepeats(columns) && IdColumn in columns && forall f: Field :: FieldColumn(f) in columns
    ensures var r := ReadRow(codec, SpecOf(m), id, NewAccount(), columns);
            r.Ok? && r.value.id == id && r.value.cells == NodeOf(m).cells <==>
              forall f :: f in m && m[f].Json? ==> codec.ReadsBack(m[f].document)
  {
    var r := ReadRow(codec, SpecOf(m), id, NewAccount(), columns);
    ReadIndependently(codec, m, id, columns, NewAccount());
    forall f
      ensures ReadCell(codec, m, f) == Some(NodeOf(m).cells[f]) <==>
                (f in m && m[f].Json? ==> codec.ReadsBack(m[f].document))
    {
      ReadsBackIff(codec, m, f);
    }
    if forall f :: f in m && m[f].Json? ==> codec.ReadsBack(m[f].document) {
      assert r.Ok?;
      assert forall f: Field :: r.value.cells[f] == NodeOf(m).cells[f];
    }
  }
}
