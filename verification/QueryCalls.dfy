/** What sequences of builder calls come to, part by part of the builder. */
module QueryCalls {
  import opened Options
  import opened QueryBuilder

  /** What one call does to each part of a builder. */
  lemma StepMeans(v: QueryView, c: Call)
    ensures var r := Called(v, c);
            && r.ctx.limit == (if c.Limit? then Some(c.n) else v.ctx.limit)
            && r.ctx.offset == (if c.Offset? then Some(c.n) else v.ctx.offset)
            && r.ctx.unique == (if c.Unique? then Some(c.b)
                                else if c.Lock? && c.postgres then Some(false) else v.ctx.unique)
            && r.ctx.fields == FieldsAfter(v.ctx.fields, c)
            && r.order == v.order + (if c.Order? then c.os else [])
            && r.predicates == v.predicates + (if c.Where? then c.ps else [])
            && r.modifiers == v.modifiers + (if c.Lock? then [c.modifier] else [])
            && r.entity == v.entity && r.inters == v.inters && r.sql == v.sql && r.path == v.path
            && |r.eager| == |v.eager|
            && forall s :: 0 <= s < |v.eager| ==> r.eager[s] == SlotAfter(v.eager[s], c, s)
  {
  }

  /** Selecting adds to the fields, grouping starts over, and a needed field is added once. */
  function FieldsAfter(fields: seq<string>, c: Call): seq<string> {
    match c
    case SelectFields(more) => fields + more
    case GroupBy(field, more) => [field] + more
    case AppendFieldOnce(field) => if field in fields then fields else fields + [field]
    case _ => fields
  }

  /** An edge is asked for afresh, or its builder called, or left alone. */
  function SlotAfter(sub: Option<QueryView>, c: Call, s: nat): Option<QueryView> {
    match c
    case With(slot, target, slots, opts) => if slot == s then Some(CalledAll(EmptyView(target, slots), opts)) else sub
    case On(slot, inner) => if slot == s && sub.Some? then Some(Called(sub.value, inner)) else sub
    case _ => sub
  }

  /** A new builder says nothing. */
  lemma EmptyMeans(entity: Entity, slots: nat)
    ensures var v := EmptyView(entity, slots);
            && v.entity == entity && v.ctx == ContextView(None, None, None, [])
            && v.order == [] && v.inters == [] && v.predicates == [] && v.modifiers == []
            && v.sql == None && v.path == None
            && |v.eager| == slots && forall s :: 0 <= s < slots ==> v.eager[s] == None
  {
  }

  /** What `pick` finds in the last call in which it finds something. */
  function LastOf<T>(calls: seq<Call>, pick: Call -> Option<T>): Option<T> {
    if calls == [] then None
    else if pick(calls[|calls| - 1]).Some? then pick(calls[|calls| - 1])
    else LastOf(calls[..|calls| - 1], pick)
  }

  /** What `pick` finds in all calls, in order. */
  function AllOf(calls: seq<Call>, pick: Call -> seq<Function>): seq<Function> {
    if calls == [] then [] else AllOf(calls[..|calls| - 1], pick) + pick(calls[|calls| - 1])
  }

  function Or<T>(a: Option<T>, b: Option<T>): Option<T> {
    if a.Some? then a else b
  }

  lemma {:induction false} CalledAllSnoc(v: QueryView, calls: seq<Call>)
    requires calls != []
    ensures CalledAll(v, calls) == Called(CalledAll(v, calls[..|calls| - 1]), calls[|calls| - 1])
    decreases |calls|
  {
    if |calls| > 1 {
      CalledAllSnoc(Called(v, calls[0]), calls[1..]);
      assert calls[1..][..|calls| - 2] == calls[..|calls| - 1][1..];
    } else {
      assert calls[1..] == [];
    }
  }

  /** After any sequence of calls the limit, offset and distinctness are those of the last call that set them. */
  lemma {:induction false} CallsMean(v: QueryView, calls: seq<Call>)
    ensures var r := CalledAll(v, calls);
            && r.ctx.limit == Or(LastOf(calls, LimitOf), v.ctx.limit)
            && r.ctx.offset == Or(LastOf(calls, OffsetOf), v.ctx.offset)
            && r.ctx.unique == Or(LastOf(calls, UniqueOf), v.ctx.unique)
            && r.entity == v.entity && r.inters == v.inters && r.sql == v.sql && r.path == v.path
    decreases |calls|
  {
    if calls != [] {
      var n := |calls| - 1;
      CallsMean(v, calls[..n]);
      CalledAllSnoc(v, calls);
      StepMeans(CalledAll(v, calls[..n]), calls[n]);
    }
  }

  /** Orderings, predicates and lock modifiers are all that were given, in order, after those that were there. */
  lemma {:induction false} CallsAdd(v: QueryView, calls: seq<Call>)
    ensures var r := CalledAll(v, calls);
            && r.order == v.order + AllOf(calls, OrderOf)
            && r.predicates == v.predicates + AllOf(calls, WhereOf)
            && r.modifiers == v.modifiers + AllOf(calls, LockOf)
    decreases |calls|
  {
    if calls != [] {
      var n := |calls| - 1;
      CallsAdd(v, calls[..n]);
      CalledAllSnoc(v, calls);
      StepMeans(CalledAll(v, calls[..n]), calls[n]);
    }
  }

  function LimitOf(c: Call): Option<int> {
    if c.Limit? then Some(c.n) else None
  }

  function OffsetOf(c: Call): Option<int> {
    if c.Offset? then Some(c.n) else None
  }

  function UniqueOf(c: Call): Option<bool> {
    if c.Unique? then Some(c.b) else if c.Lock? && c.postgres then Some(false) else None
  }

  function OrderOf(c: Call): seq<Function> {
    if c.Order? then c.os else []
  }

  function WhereOf(c: Call): seq<Function> {
    if c.Where? then c.ps else []
  }

  function LockOf(c: Call): seq<Function> {
    if c.Lock? then [c.modifier] else []
  }

  /** The fields selected and the edges asked for, call by call. */
  lemma {:induction false} CallsMeanBelow(v: QueryView, calls: seq<Call>, s: nat)
    requires s < |v.eager|
    ensures CalledAll(v, calls).ctx.fields == FoldFields(v.ctx.fields, calls)
    ensures CalledAll(v, calls).eager[s] == FoldSlot(v.eager[s], calls, s)
    decreases |calls|
  {
    if calls != [] {
      var n := |calls| - 1;
      CallsMeanBelow(v, calls[..n], s);
      CalledAllSnoc(v, calls);
      StepMeans(CalledAll(v, calls[..n]), calls[n]);
    }
  }

  function FoldFields(fields: seq<string>, calls: seq<Call>): seq<string> {
    if calls == [] then fields else FieldsAfter(FoldFields(fields, calls[..|calls| - 1]), calls[|calls| - 1])
  }

  function FoldSlot(sub: Option<QueryView>, calls: seq<Call>, s: nat): Option<QueryView> {
    if calls == [] then sub else SlotAfter(FoldSlot(sub, calls[..|calls| - 1], s), calls[|calls| - 1], s)
  }
}
