/**
 Query builders and their clones. A builder owns its context and the builders of the edges it
 eager-loads, and those own theirs: an account query may load account-group edges whose query
 loads accounts again, to any depth. All entities' builders follow one template; `eager` holds the
 edge builders in the order of the struct, null where an edge is not loaded.
 */
module QueryBuilder {
  import opened Options

  datatype Entity =
    | AccountEntity | AccountGroupEntity | GroupEntity | ProxyEntity | UsageLogEntity | OtherEntity(n: nat)

  /** Predicates, orderings, interceptors and modifiers are opaque functions, known by number. */
  type Function = int

  datatype ContextView = ContextView(limit: Option<int>, offset: Option<int>, unique: Option<bool>, fields: seq<string>)

  const EMPTY_CONTEXT: ContextView := ContextView(None, None, None, [])

  /** Everything a builder says, its edge builders included. */
  datatype QueryView = QueryView(
    entity: Entity,
    ctx: ContextView,
    order: seq<Function>,
    inters: seq<Function>,
    predicates: seq<Function>,
    modifiers: seq<Function>,
    sql: Option<string>,
    path: Option<Function>,
    eager: seq<Option<QueryView>>)

  /** The same query without its lock modifiers, on every level. */
  function Stripped(v: QueryView): QueryView {
    v.(modifiers := [],
       eager := seq(|v.eager|, i requires 0 <= i < |v.eager| =>
         if v.eager[i].None? then None else Some(Stripped(v.eager[i].value))))
  }

  // ------------------------------------------------------------------ builder calls

  /**
   A call on a builder, or on one of its edge builders. `With` sets an edge builder up from scratch
   by running the given calls on a new one; `On` is a call on the edge builder already there, as
   the loaders make when they add their filter.
   */
  datatype Call =
    | Where(ps: seq<Function>)
    | Limit(n: int)
    | Offset(n: int)
    | Unique(b: bool)
    | Order(os: seq<Function>)
    | SelectFields(fields: seq<string>)
    | GroupBy(field: string, more: seq<string>)
    | AppendFieldOnce(field: string)
    | Lock(modifier: Function, postgres: bool)
    | With(slot: nat, target: Entity, slots: nat, opts: seq<Call>)
    | On(slot: nat, call: Call)

  function EmptyView(entity: Entity, slots: nat): QueryView {
    QueryView(entity, EMPTY_CONTEXT, [], [], [], [], None, None, seq(slots, _ => None))
  }

  /** What a call makes of a builder that reads as `v`. */
  function Called(v: QueryView, call: Call): (r: QueryView)
    ensures |r.eager| == |v.eager|
    decreases call, 0
  {
    match call
    case Where(ps) => v.(predicates := v.predicates + ps)
    case Limit(n) => v.(ctx := v.ctx.(limit := Some(n)))
    case Offset(n) => v.(ctx := v.ctx.(offset := Some(n)))
    case Unique(b) => v.(ctx := v.ctx.(unique := Some(b)))
    case Order(os) => v.(order := v.order + os)
    case SelectFields(fields) => v.(ctx := v.ctx.(fields := v.ctx.fields + fields))
    case GroupBy(field, more) => v.(ctx := v.ctx.(fields := [field] + more))
    case AppendFieldOnce(field) =>
      if field in v.ctx.fields then v else v.(ctx := v.ctx.(fields := v.ctx.fields + [field]))
    case Lock(modifier, postgres) =>
      v.(modifiers := v.modifiers + [modifier],
         ctx := if postgres then v.ctx.(unique := Some(false)) else v.ctx)
    case With(slot, target, slots, opts) =>
      if slot < |v.eager| then v.(eager := v.eager[slot := Some(CalledAll(EmptyView(target, slots), opts))]) else v
    case On(slot, inner) =>
      if slot < |v.eager| && v.eager[slot].Some?
      then v.(eager := v.eager[slot := Some(Called(v.eager[slot].value, inner))]) else v
  }

  function CalledAll(v: QueryView, calls: seq<Call>): (r: QueryView)
    ensures |r.eager| == |v.eager|
    decreases calls, |calls|
  {
    if calls == [] then v else CalledAll(Called(v, calls[0]), calls[1..])
  }

  class QueryContext {
    var limit: Option<int>
    var offset: Option<int>
    var unique: Option<bool>
    var fields: seq<string>

    constructor (v: ContextView)
      ensures View() == v
    {
      limit, offset, unique, fields := v.limit, v.offset, v.unique, v.fields;
    }

    function View(): ContextView
      reads this
    {
      ContextView(limit, offset, unique, fields)
    }
  }

  // ------------------------------------------------------------------ slices

  /** A Go slice: the first `len` elements of an array that may have room for more. */
  datatype Slice = Slice(data: array<Function>, len: nat)

  ghost predicate Fits(s: Slice) {
    s.len <= s.data.Length
  }

  function Elements(s: Slice): (es: seq<Function>)
    requires Fits(s)
    reads s.data
    ensures |es| == s.len
  {
    s.data[..s.len]
  }

  /** Go's `append`: in place if there is room, and into a new array with room to spare if not. */
  method AppendTo(s: Slice, xs: seq<Function>) returns (r: Slice)
    requires Fits(s)
    modifies s.data
    ensures Fits(r) && Fits(s)
    ensures s.len + |xs| <= s.data.Length ==> r.data == s.data
    ensures s.len + |xs| > s.data.Length ==> fresh(r.data) && r.len < r.data.Length
    ensures Elements(r) == old(Elements(s)) + xs && Elements(s) == old(Elements(s))
  {
    var data := s.data;
    if s.len + |xs| > s.data.Length {
      data := Grown(s, 2 * (s.len + |xs|));
    }
    for i := 0 to |xs|
      invariant s.len <= data.Length && data[..s.len] == old(Elements(s)) && Elements(s) == old(Elements(s))
      invariant data[s.len..s.len + i] == xs[..i]
    {
      data[s.len + i] := xs[i];
    }
    r := Slice(data, s.len + |xs|);
    assert data[..r.len] == data[..s.len] + data[s.len..r.len];
  }

  /** A larger array that starts with the slice's elements. */
  method Grown(s: Slice, size: nat) returns (data: array<Function>)
    requires Fits(s) && s.len <= size
    ensures fresh(data) && data.Length == size && data[..s.len] == Elements(s)
  {
    data := new Function[size](_ => 0);
    for i := 0 to s.len
      invariant data[..i] == s.data[..i]
    {
      data[i] := s.data[i];
    }
  }

  /** `append([]T{}, s...)`: the same elements in an array of their own. */
  method CopyOf(s: Slice) returns (r: Slice)
    requires Fits(s)
    ensures Fits(r) && fresh(r.data) && Elements(r) == Elements(s)
  {
    var empty := new Function[0];
    r := AppendTo(Slice(empty, 0), s.data[..s.len]);
  }

  /**
   Why a clone has to copy: two builders that held the same slice with room to spare would both end
   with whatever the second one appended.
   */
  method ShareThenAppend(s: Slice, x: Function, y: Function) returns (a: Slice, b: Slice)
    requires s.len < s.data.Length
    modifies s.data
    ensures Fits(a) && Fits(b)
    ensures Elements(a) == old(Elements(s)) + [y] && Elements(b) == old(Elements(s)) + [y]
  {
    a := AppendTo(s, [x]);
    b := AppendTo(s, [y]);
  }

  // ------------------------------------------------------------------ builders

  class Query {
    const entity: Entity
    var ctx: QueryContext
    var order: Slice
    var inters: Slice
    var predicates: Slice
    var modifiers: seq<Function>
    var sql: Option<string>
    var path: Option<Function>
    var eager: seq<Query?>
    ghost var Repr: set<object>

    /** What the builder owns besides its edge builders. */
    ghost function Parts(): set<object>
      reads this
    {
      {this, ctx, order.data, inters.data, predicates.data}
    }

    /** The three slices have arrays of their own. */
    ghost predicate OwnSlices()
      reads this
    {
      && Fits(order) && Fits(inters) && Fits(predicates)
      && order.data != inters.data && order.data != predicates.data && inters.data != predicates.data
    }

    ghost predicate Valid()
      reads this, Repr
      ensures Valid() ==> this in Repr && ctx in Repr
      decreases Repr, 0, 0
    {
      && Parts() <= Repr && OwnSlices()
      && (forall i :: 0 <= i < |eager| && eager[i] != null ==>
            && eager[i] in Repr && eager[i].Repr <= Repr && this !in eager[i].Repr
            && eager[i].Repr !! Parts()
            && eager[i].Valid())
      && (forall i, j :: 0 <= i < j < |eager| && eager[i] != null && eager[j] != null ==>
            eager[i].Repr !! eager[j].Repr)
    }

    ghost function View(): QueryView
      requires Valid()
      reads this, Repr
      decreases Repr, 1
    {
      OwnView().(eager := EagerViews())
    }

    /** What the builder says itself. */
    ghost function OwnView(): QueryView
      requires OwnSlices()
      reads this, ctx, order.data, inters.data, predicates.data
    {
      QueryView(entity, ctx.View(), Elements(order), Elements(inters), Elements(predicates), modifiers, sql, path, [])
    }

    ghost function EagerViews(): (vs: seq<Option<QueryView>>)
      requires Valid()
      reads this, Repr
      ensures |vs| == |eager|
      ensures forall i :: 0 <= i < |eager| ==> vs[i] == if eager[i] == null then None else Some(eager[i].View())
      decreases Repr, 0, 0
    {
      seq(|eager|, i requires 0 <= i < |eager| && Valid() reads this, Repr =>
        if eager[i] == null then None else Some(eager[i].View()))
    }

    /** A builder over parts that are not shared with anything. */
    constructor (entity: Entity, ctx: QueryContext, order: Slice, inters: Slice, predicates: Slice,
                 sql: Option<string>, path: Option<Function>, eager: seq<Query?>,
                 ghost parts: set<object>, ghost views: seq<Option<QueryView>>)
      requires Fits(order) && Fits(inters) && Fits(predicates)
      requires order.data != inters.data && order.data != predicates.data && inters.data != predicates.data
      requires Separate(eager, parts, views) && {ctx, order.data, inters.data, predicates.data} !! parts
      ensures Valid() && Repr == {this, ctx, order.data, inters.data, predicates.data} + parts
      ensures this.entity == entity && this.ctx == ctx && this.order == order && this.inters == inters
      ensures this.predicates == predicates && this.modifiers == [] && this.sql == sql && this.path == path
      ensures this.eager == eager
    {
      this.entity, this.ctx, this.order, this.inters := entity, ctx, order, inters;
      this.predicates, this.modifiers, this.sql, this.path, this.eager := predicates, [], sql, path, eager;
      Repr := {this, ctx, order.data, inters.data, predicates.data} + parts;
    }

    /** A builder over separate edge builders reads as they do. */
    lemma EagerReadsAs(parts: set<object>, views: seq<Option<QueryView>>)
      requires Valid() && Separate(eager, parts, views)
      ensures EagerViews() == views
    {
      assert forall i :: 0 <= i < |eager| && eager[i] != null ==> Some(eager[i].View()) == views[i];
    }

    /** A duplicate of the builder and of all builders below it, sharing nothing with them. */
    method Clone() returns (c: Query)
      requires Valid()
      ensures c.Valid() && fresh(c.Repr)
      ensures c.View() == Stripped(View())
      decreases Repr, 1
    {
      ghost var views := Stripped(View()).eager;
      var copies, parts := CloneEager();
      c := CopyOver(copies, parts, views);
    }

    /** A copy of the builder's own parts, without modifiers, over the given edge builders. */
    method CopyOver(copies: seq<Query?>, ghost parts: set<object>, ghost views: seq<Option<QueryView>>)
      returns (c: Query)
      requires Parts() <= Repr && OwnSlices() && Separate(copies, parts, views)
      ensures c.Valid() && fresh(c.Repr - parts)
      ensures c.View() == QueryView(entity, ctx.View(), Elements(order), Elements(inters), Elements(predicates),
                                    [], sql, path, views)
    {
      var context := new QueryContext(ctx.View());
      var order', inters', predicates' := CopySlices();
      c := new Query(entity, context, order', inters', predicates', sql, path, copies, parts, views);
      c.EagerReadsAs(parts, views);
    }

    /** The builder's three slices, each in a new array. */
    method CopySlices() returns (o: Slice, i: Slice, p: Slice)
      requires OwnSlices()
      ensures Fits(o) && Fits(i) && Fits(p) && fresh({o.data, i.data, p.data})
      ensures o.data != i.data && o.data != p.data && i.data != p.data
      ensures Elements(o) == Elements(order) && Elements(i) == Elements(inters) && Elements(p) == Elements(predicates)
    {
      o := CopyOf(order);
      i := CopyOf(inters);
      p := CopyOf(predicates);
    }

    /** Duplicates of the edge builders, slot by slot; a missing builder stays missing. */
    method CloneEager() returns (copies: seq<Query?>, ghost parts: set<object>)
      requires Valid()
      ensures fresh(parts) && Separate(copies, parts, Stripped(View()).eager)
      decreases Repr, 0, 1
    {
      copies, parts := [], {};
      ghost var views := Stripped(View()).eager;
      for i := 0 to |eager|
        invariant fresh(parts) && Separate(copies, parts, views[..i])
      {
        var copy, part := CloneSlot(i);
        OneMoreSeparate(copies, parts, views[..i], copy, part, views[i]);
        assert views[..i + 1] == views[..i] + [views[i]];
        copies, parts := copies + [copy], parts + part;
      }
      assert views[..|eager|] == views;
    }

    method CloneSlot(i: nat) returns (copy: Query?, ghost part: set<object>)
      requires Valid() && i < |eager|
      ensures fresh(part) && Separate([copy], part, [Stripped(View()).eager[i]])
      decreases Repr, 0, 0
    {
      copy, part := null, {};
      if eager[i] != null {
        copy := eager[i].Clone();
        part := copy.Repr;
      }
    }

    // ---------------------------------------------------------------- calls

    /** What happens to a builder's own parts leaves its edge builders as they were. */
    twostate lemma EagerKept()
      requires old(Valid()) && eager == old(eager)
      requires forall o :: o in old(Repr) && o !in old(Parts()) ==> unchanged(o)
      ensures forall i :: 0 <= i < |eager| && eager[i] != null ==>
                && eager[i].Repr == old(eager[i].Repr) && eager[i].Valid() && eager[i].View() == old(eager[i].View())
    {
      forall i | 0 <= i < |eager| && eager[i] != null
        ensures eager[i].Repr == old(eager[i].Repr) && eager[i].Valid() && eager[i].View() == old(eager[i].View())
      {
        assert old(eager[i].Repr) !! old(Parts()) && old(eager[i].Repr) <= old(Repr);
      }
    }

    /** Calls that set one of the context's scalars. */
    method CallScalar(call: Call)
      requires Valid() && (call.Limit? || call.Offset? || call.Unique?)
      modifies ctx
      ensures Valid()
      ensures View() == Called(old(View()), call)
    {
      match call {
        case Limit(n) => ctx.limit := Some(n);
        case Offset(n) => ctx.offset := Some(n);
        case Unique(b) => ctx.unique := Some(b);
      }
      EagerKept();
      assert EagerViews() == old(EagerViews());
    }

    /** Calls that change the selected fields. */
    method CallFields(call: Call)
      requires Valid() && (call.SelectFields? || call.GroupBy? || call.AppendFieldOnce?)
      modifies ctx
      ensures Valid()
      ensures View() == Called(old(View()), call)
    {
      var fields := ctx.fields;
      match call {
        case SelectFields(more) => fields := fields + more;
        case GroupBy(field, more) => fields := [field] + more;
        case AppendFieldOnce(field) =>
          if field !in fields {
            fields := fields + [field];
          }
      }
      ctx.fields := fields;
      EagerKept();
      assert EagerViews() == old(EagerViews());
    }

    method CallWhere(ps: seq<Function>)
      requires Valid()
      modifies this`predicates, this`Repr, predicates.data
      ensures Valid() && fresh(Repr - old(Repr))
      ensures View() == Called(old(View()), Where(ps))
    {
      predicates := AppendTo(predicates, ps);
      Repr := Repr + {predicates.data};
      EagerKept();
      assert EagerViews() == old(EagerViews());
    }

    method CallOrder(os: seq<Function>)
      requires Valid()
      modifies this`order, this`Repr, order.data
      ensures Valid() && fresh(Repr - old(Repr))
      ensures View() == Called(old(View()), Order(os))
    {
      order := AppendTo(order, os);
      Repr := Repr + {order.data};
      EagerKept();
      assert EagerViews() == old(EagerViews());
    }

    /** `ForUpdate` and `ForShare`; on Postgres they also switch off distinct rows. */
    method LockRows(modifier: Function, postgres: bool)
      requires Valid()
      modifies this`modifiers, ctx
      ensures Valid()
      ensures View() == Called(old(View()), Lock(modifier, postgres))
    {
      if postgres {
        ctx.unique := Some(false);
      }
      modifiers := modifiers + [modifier];
      EagerKept();
      assert EagerViews() == old(EagerViews());
    }

    /** Puts a separate builder into a slot. */
    method SetEager(slot: nat, sub: Query)
      requires Valid() && slot < |eager|
      requires sub.Valid() && sub.Repr !! Repr
      modifies this`eager, this`Repr
      ensures Valid() && Repr == old(Repr) + sub.Repr
      ensures View() == old(View()).(eager := old(View()).eager[slot := Some(sub.View())])
    {
      ghost var views, view := EagerViews(), sub.View();
      assert forall i :: 0 <= i < |eager| && eager[i] != null ==> eager[i].Repr !! sub.Repr;
      eager := eager[slot := sub];
      OutsideKept(sub);
      OldEagerKept();
      Include(sub, views[slot := Some(view)]);
    }

    /** Assignments to this builder's own fields do not affect the edge builders it had. */
    twostate lemma OldEagerKept()
      requires old(Valid())
      requires forall o :: o in old(Repr) && o != this ==> unchanged(o)
      ensures forall i :: 0 <= i < |old(eager)| && old(eager)[i] != null ==>
                var sub := old(eager)[i];
                sub.Repr == old(sub.Repr) && sub.Valid() && sub.View() == old(sub.View())
    {
    }

    /** A builder that does not hold this one is not affected by assignments to its fields. */
    twostate lemma OutsideKept(sub: Query)
      requires old(sub.Valid()) && this !in old(sub.Repr)
      requires forall o :: o in old(sub.Repr) ==> unchanged(o)
      ensures sub.Repr == old(sub.Repr) && sub.Valid() && sub.View() == old(sub.View())
    {
    }

    /** Sets an edge builder up from scratch. */
    method CallWith(slot: nat, target: Entity, slots: nat, opts: seq<Call>)
      requires Valid() && slot < |eager|
      modifies Repr
      ensures Valid() && fresh(Repr - old(Repr))
      ensures View() == Called(old(View()), With(slot, target, slots, opts))
      decreases opts, |opts| + 3
    {
      var sub := NewCalled(target, slots, opts);
      SetEager(slot, sub);
    }

    /** A new builder with the given calls made on it. */
    static method NewCalled(target: Entity, slots: nat, opts: seq<Call>) returns (sub: Query)
      ensures sub.Valid() && fresh(sub.Repr) && sub.View() == CalledAll(EmptyView(target, slots), opts)
      decreases opts, |opts| + 2
    {
      sub := NewQuery(target, slots);
      sub.CallAll(opts);
    }

    method Call(call: Call)
      requires Valid()
      modifies Repr
      ensures Valid() && fresh(Repr - old(Repr))
      ensures View() == Called(old(View()), call)
      decreases call, 1
    {
      match call
      case With(slot, target, slots, opts) =>
        if slot < |eager| {
          CallWith(slot, target, slots, opts);
        }
      case On(slot, inner) =>
        if slot < |eager| && eager[slot] != null {
          CallOn(slot, inner);
        }
      case _ => CallOwn(call);
    }

    /** A call on the builder itself. */
    method CallOwn(call: Call)
      requires Valid() && !call.With? && !call.On?
      modifies Repr
      ensures Valid() && fresh(Repr - old(Repr))
      ensures View() == Called(old(View()), call)
    {
      match call
      case Where(ps) => CallWhere(ps);
      case Order(os) => CallOrder(os);
      case Lock(modifier, postgres) => LockRows(modifier, postgres);
      case Limit(_) => CallScalar(call);
      case Offset(_) => CallScalar(call);
      case Unique(_) => CallScalar(call);
      case SelectFields(_) => CallFields(call);
      case GroupBy(_, _) => CallFields(call);
      case AppendFieldOnce(_) => CallFields(call);
    }

    /** A call on the edge builder in a slot. */
    method CallOn(slot: nat, inner: Call)
      requires Valid() && slot < |eager| && eager[slot] != null
      modifies Repr
      ensures Valid() && fresh(Repr - old(Repr))
      ensures View() == Called(old(View()), On(slot, inner))
      decreases inner, 3
    {
      ghost var views := EagerViews();
      CallInner(slot, inner, views);
      Include(eager[slot], views[slot := Some(Called(views[slot].value, inner))]);
    }

    /** The edge builders read as given. */
    ghost predicate SlotsRead(sub: Query, views: seq<Option<QueryView>>)
      requires Includable(sub)
      reads this, Repr, sub, sub.Repr
    {
      && |views| == |eager|
      && forall i :: 0 <= i < |eager| ==> views[i] == if eager[i] == null then None else Some(eager[i].View())
    }

    /** The same, before the footprint takes in what the edge builder acquired. */
    method CallInner(slot: nat, inner: Call, ghost views: seq<Option<QueryView>>)
      requires Valid() && slot < |eager| && eager[slot] != null && views == EagerViews()
      modifies eager[slot].Repr
      ensures Includable(eager[slot]) && fresh(eager[slot].Repr - old(Repr)) && OwnView() == old(OwnView())
      ensures SlotsRead(eager[slot], views[slot := Some(Called(views[slot].value, inner))])
      decreases inner, 2
    {
      eager[slot].Call(inner);
      OthersKept(slot);
    }

    /** Valid but for what one edge builder has acquired. */
    ghost predicate Includable(sub: Query)
      reads this, Repr, sub, sub.Repr
    {
      && Parts() <= Repr && OwnSlices() && sub.Repr !! Parts()
      && (forall i :: 0 <= i < |eager| && eager[i] != null ==>
            && eager[i] in Repr + sub.Repr && eager[i].Repr <= Repr + sub.Repr && this !in eager[i].Repr
            && eager[i].Repr !! Parts() && eager[i].Valid())
      && (forall i, j :: 0 <= i < j < |eager| && eager[i] != null && eager[j] != null ==>
            eager[i].Repr !! eager[j].Repr)
    }

    /** Extends the footprint by what an edge builder has acquired. */
    ghost method Include(sub: Query, views: seq<Option<QueryView>>)
      requires Includable(sub) && SlotsRead(sub, views)
      modifies this`Repr
      ensures Valid() && Repr == old(Repr) + old(sub.Repr)
      ensures View() == old(OwnView()).(eager := views)
    {
      Extend(sub);
      EagerViewsAre(views);
    }

    lemma EagerViewsAre(views: seq<Option<QueryView>>)
      requires Valid() && |views| == |eager|
      requires forall i :: 0 <= i < |eager| ==> views[i] == if eager[i] == null then None else Some(eager[i].View())
      ensures EagerViews() == views
    {
    }

    ghost method Extend(sub: Query)
      requires Includable(sub)
      modifies this`Repr
      ensures Valid() && Repr == old(Repr) + old(sub.Repr) && OwnView() == old(OwnView())
      ensures forall i :: 0 <= i < |eager| && eager[i] != null ==> eager[i].View() == old(eager[i].View())
    {
      Repr := Repr + sub.Repr;
    }

    /** What happens inside one edge builder leaves the others as they were. */
    twostate lemma OthersKept(slot: nat)
      requires old(Valid()) && slot < |eager| && eager[slot] != null
      requires eager == old(eager) && Repr == old(Repr)
      requires forall o :: o in old(Repr) && o !in old(eager[slot].Repr) ==> unchanged(o)
      requires fresh(eager[slot].Repr - old(eager[slot].Repr))
      ensures forall i :: 0 <= i < |eager| && i != slot && eager[i] != null ==>
                && eager[i].Repr == old(eager[i].Repr) && eager[i].Valid() && eager[i].Repr !! eager[slot].Repr
                && eager[i].View() == old(eager[i].View())
    {
      forall i | 0 <= i < |eager| && i != slot && eager[i] != null
        ensures eager[i].Repr == old(eager[i].Repr) && eager[i].Valid() && eager[i].Repr !! eager[slot].Repr
        ensures eager[i].View() == old(eager[i].View())
      {
        assert old(eager[i].Repr) !! old(eager[slot].Repr);
      }
    }

    method CallAll(calls: seq<Call>)
      requires Valid()
      modifies Repr
      ensures Valid() && fresh(Repr - old(Repr))
      ensures View() == CalledAll(old(View()), calls)
      decreases calls, |calls| + 1
    {
      if |calls| > 0 {
        Call(calls[0]);
        CallAll(calls[1..]);
      }
    }
  }

  /** Builders that read as given, made of the given parts, with no part in two of them. */
  ghost predicate Separate(subs: seq<Query?>, parts: set<object>, views: seq<Option<QueryView>>)
    reads parts
  {
    && |subs| == |views|
    && (forall j :: 0 <= j < |subs| && subs[j] == null ==> views[j] == None)
    && (forall j :: 0 <= j < |subs| && subs[j] != null ==>
          && subs[j] in parts && subs[j].Repr <= parts && subs[j].Valid() && views[j] == Some(subs[j].View()))
    && (forall j, k :: 0 <= j < k < |subs| && subs[j] != null && subs[k] != null ==> subs[j].Repr !! subs[k].Repr)
  }

  lemma OneMoreSeparate(subs: seq<Query?>, parts: set<object>, views: seq<Option<QueryView>>,
                        sub: Query?, part: set<object>, view: Option<QueryView>)
    requires Separate(subs, parts, views) && Separate([sub], part, [view]) && parts !! part
    ensures Separate(subs + [sub], parts + part, views + [view])
  {
    var all := subs + [sub];
    assert forall j :: 0 <= j < |subs| ==> all[j] == subs[j];
    assert [sub][0] == sub && all[|subs|] == sub;
  }

  /** A new builder of an entity with the given number of edges. */
  method NewQuery(entity: Entity, slots: nat) returns (q: Query)
    ensures q.Valid() && fresh(q.Repr) && q.View() == EmptyView(entity, slots)
  {
    var ctx := new QueryContext(EMPTY_CONTEXT);
    var order, inters, predicates := new Function[0], new Function[0], new Function[0];
    q := new Query(entity, ctx, Slice(order, 0), Slice(inters, 0), Slice(predicates, 0), None, None,
                   seq(slots, _ => null), {}, EmptyView(entity, slots).eager);
    q.EagerReadsAs({}, EmptyView(entity, slots).eager);
  }

  // ------------------------------------------------------------------ isolation

  /** A call on the original builder, or on its clone. */
  datatype SideCall = OnOriginal(call: Call) | OnClone(call: Call)

  function CallsOnOriginal(calls: seq<SideCall>): seq<Call> {
    if calls == [] then []
    else (if calls[0].OnOriginal? then [calls[0].call] else []) + CallsOnOriginal(calls[1..])
  }

  function CallsOnClone(calls: seq<SideCall>): seq<Call> {
    if calls == [] then []
    else (if calls[0].OnClone? then [calls[0].call] else []) + CallsOnClone(calls[1..])
  }

  /** A call on one of two builders with nothing in common is invisible in the other. */
  method CallApart(q: Query, c: Query, call: Call)
    requires q.Valid() && c.Valid() && q.Repr !! c.Repr
    modifies q.Repr
    ensures q.Valid() && c.Valid() && q.Repr !! c.Repr && c.Repr == old(c.Repr) && fresh(q.Repr - old(q.Repr))
    ensures q.View() == Called(old(q.View()), call) && c.View() == old(c.View())
  {
    q.Call(call);
  }

  /** Two builders with nothing in common: calls on one are invisible in the other. */
  method Interleave(q: Query, c: Query, calls: seq<SideCall>)
    requires q.Valid() && c.Valid() && q.Repr !! c.Repr
    modifies q.Repr, c.Repr
    ensures q.Valid() && c.Valid() && q.Repr !! c.Repr
    ensures q.View() == CalledAll(old(q.View()), CallsOnOriginal(calls))
    ensures c.View() == CalledAll(old(c.View()), CallsOnClone(calls))
    decreases |calls|
  {
    if |calls| > 0 {
      ghost var forQ, forC := CallsOnOriginal(calls[1..]), CallsOnClone(calls[1..]);
      match calls[0] {
        case OnOriginal(call) =>
          assert ([call] + forQ)[1..] == forQ && [] + forC == forC;
          CallApart(q, c, call);
        case OnClone(call) =>
          assert ([call] + forC)[1..] == forC && [] + forQ == forQ;
          CallApart(c, q, call);
      }
      Interleave(q, c, calls[1..]);
    }
  }

  /**
   After cloning, any later calls on the original and the clone, in any order and at any depth,
   leave each as if the other did not exist.
   */
  method CloneThenCall(q: Query, calls: seq<SideCall>) returns (c: Query)
    requires q.Valid()
    modifies q.Repr
    ensures q.Valid() && c.Valid() && q.Repr !! c.Repr
    ensures q.View() == CalledAll(old(q.View()), CallsOnOriginal(calls))
    ensures c.View() == CalledAll(Stripped(old(q.View())), CallsOnClone(calls))
  {
    c := q.Clone();
    Interleave(q, c, calls);
  }

  // ------------------------------------------------------------------ what stripping keeps

  /** The builder at a path of slots, if there is one. */
  function At(v: QueryView, path: seq<nat>): Option<QueryView> {
    if path == [] then Some(v)
    else if path[0] < |v.eager| && v.eager[path[0]].Some? then At(v.eager[path[0]].value, path[1..]) else None
  }

  /** At every depth a clone has the same builder with everything but its modifiers. */
  lemma {:induction false} CloneDiffersOnlyInModifiers(v: QueryView, path: seq<nat>)
    ensures At(Stripped(v), path).Some? <==> At(v, path).Some?
    ensures At(v, path).Some? ==>
              var a, b := At(v, path).value, At(Stripped(v), path).value;
              && b.modifiers == []
              && b.entity == a.entity && b.ctx == a.ctx && b.order == a.order && b.inters == a.inters
              && b.predicates == a.predicates && b.sql == a.sql && b.path == a.path && |b.eager| == |a.eager|
    decreases |path|
  {
    if path != [] && path[0] < |v.eager| && v.eager[path[0]].Some? {
      CloneDiffersOnlyInModifiers(v.eager[path[0]].value, path[1..]);
    }
  }

  /** Cloning a clone changes nothing more. */
  lemma {:induction false} StrippingTwice(v: QueryView)
    ensures Stripped(Stripped(v)) == Stripped(v)
    decreases v
  {
    forall i | 0 <= i < |v.eager| && v.eager[i].Some?
      ensures Stripped(Stripped(v.eager[i].value)) == Stripped(v.eager[i].value)
    {
      StrippingTwice(v.eager[i].value);
    }
    assert Stripped(Stripped(v)).eager == Stripped(v).eager;
  }

  /** No builder of the tree holds a lock modifier. */
  ghost predicate Unlocked(v: QueryView) {
    forall path: seq<nat> :: At(v, path).Some? ==> At(v, path).value.modifiers == []
  }

  lemma UnlockedBelow(v: QueryView, i: nat)
    requires Unlocked(v) && i < |v.eager| && v.eager[i].Some?
    ensures Unlocked(v.eager[i].value)
  {
    forall path: seq<nat> | At(v.eager[i].value, path).Some?
      ensures At(v.eager[i].value, path).value.modifiers == []
    {
      assert ([i] + path)[1..] == path;
      assert At(v, [i] + path) == At(v.eager[i].value, path);
    }
  }

  /** A clone reads exactly as its original iff no builder of the tree holds a lock modifier. */
  lemma {:induction false} CloneIsEqualIff(v: QueryView)
    ensures Stripped(v) == v <==> Unlocked(v)
    decreases v
  {
    if Stripped(v) == v {
      forall path: seq<nat> | At(v, path).Some?
        ensures At(v, path).value.modifiers == []
      {
        CloneDiffersOnlyInModifiers(v, path);
      }
    }
    if Unlocked(v) {
      var here: seq<nat> := [];
      assert At(v, here) == Some(v) && v.modifiers == [];
      forall i | 0 <= i < |v.eager| && v.eager[i].Some?
        ensures Stripped(v.eager[i].value) == v.eager[i].value
      {
        UnlockedBelow(v, i);
        CloneIsEqualIff(v.eager[i].value);
      }
      assert Stripped(v).eager == v.eager;
    }
  }
}
