/**
 What every run of a bulk save does, for any builders, hooks and database answer.

 The reference below treats each builder on its own: `Descent` says how far a mutation gets down
 that builder's hooks, `Reaches` whether it gets past the check. Nothing in it follows the
 nesting of the closures.
 */
module BulkCreateRuns {
  import opened Options
  import opened AccountSchema
  import opened BulkCreate
  import Rows = AccountRows

  // ------------------------------------------------------------------ one builder on its own

  /**
   Either hook `depth` returned by itself, or the link was called: `own` tells whether it was
   called with the builder's own mutation, `checked` are the builder's fields at that moment and
   `passed` those of the mutation it was called with.
   */
  datatype Descent = Stopped(depth: nat, out: Outcome) | Arrived(own: bool, checked: Fields, passed: Fields)

  function DescentFrom(hooks: seq<Hook>, k: nat, own: bool, mine: Fields, f: Fields): (d: Descent)
    requires k <= |hooks|
    ensures d.Stopped? ==> k <= d.depth < |hooks|
    decreases |hooks| - k
  {
    if k == |hooks| then Arrived(own, mine, f)
    else
      match hooks[k].enter(f)
      case Return(out) => Stopped(k, out)
      case Forward(g, substitute) =>
        var still := own && !substitute;
        DescentFrom(hooks, k + 1, still, if still then g else mine, g)
  }

  function DescentOf(b: Builder): Descent {
    DescentFrom(b.hooks, 0, true, b.mutation.fields, b.mutation.fields)
  }

  /** No entry hook of the builder stops the chain, and the check passes. */
  predicate Reaches(env: Env, b: Builder) {
    DescentOf(b).Arrived? && env.check(DescentOf(b).checked).None?
  }

  /** What the builder's chain returns when its link returns `bottom`. */
  function Ascent(hooks: seq<Hook>, k: nat, f: Fields, bottom: Outcome): Outcome
    requires k <= |hooks|
    decreases |hooks| - k
  {
    if k == |hooks| then bottom
    else
      match hooks[k].enter(f)
      case Return(out) => out
      case Forward(g, _) => hooks[k].leave(f, Ascent(hooks, k + 1, g, bottom))
  }

  /** The builder's hooks let a success through on the way out. */
  predicate LetsSuccessOut(b: Builder) {
    Ascent(b.hooks, 0, b.mutation.fields, Ok).Ok?
  }

  // ------------------------------------------------------------------ all builders

  /** Builders i, i+1, ... all reach their link. */
  ghost predicate AllReach(env: Env, bs: seq<Builder>, i: nat) {
    forall j :: i <= j < |bs| ==> Reaches(env, bs[j])
  }

  /** Builders 0, ..., j-1 all reach their link. */
  ghost predicate ReachedBefore(env: Env, bs: seq<Builder>, i: nat, j: nat) {
    forall l :: i <= l < j && l < |bs| ==> Reaches(env, bs[l])
  }

  /** The row of a builder that reached its link. */
  function RowOf(b: Builder): Option<Rows.Spec> {
    if DescentOf(b).Arrived? then Some(Rows.SpecOf(DescentOf(b).passed)) else None
  }

  /** The rows of the batch, one per builder, in builder order. */
  function Batch(bs: seq<Builder>): (specs: Specs)
    ensures |specs| == |bs|
  {
    seq(|bs|, j requires 0 <= j < |bs| => RowOf(bs[j]))
  }

  function BatchOutcome(env: Env, bs: seq<Builder>): Outcome {
    match env.batch(Batch(bs))
    case Failed(msg, constraint) => Err(if constraint then Constraint(Database(msg)) else Database(msg))
    case Inserted(_) => Ok
  }

  /** What the chain of builders i, i+1, ... returns. */
  function OutcomeFrom(env: Env, bs: seq<Builder>, i: nat): Outcome
    requires i <= |bs|
    decreases |bs| - i
  {
    if i == |bs| then BatchOutcome(env, bs)
    else Ascent(bs[i].hooks, 0, bs[i].mutation.fields, LinkOutcome(env, bs, i))
  }

  /** What the link of builder i returns, when it is called. */
  function LinkOutcome(env: Env, bs: seq<Builder>, i: nat): Outcome
    requires i < |bs|
    decreases |bs| - i, 0
  {
    if DescentOf(bs[i]).Arrived? && !Reaches(env, bs[i])
    then Err(Check(env.check(DescentOf(bs[i]).checked).value))
    else OutcomeFrom(env, bs, i + 1)
  }

  /** The key the driver gave to row j, if the batch was inserted. */
  ghost function KeyOf(env: Env, bs: seq<Builder>, i: nat, j: nat): Option<int> {
    if AllReach(env, bs, i) && env.batch(Batch(bs)).Inserted? then env.batch(Batch(bs)).ids(j) else None
  }

  // ------------------------------------------------------------------ the trace

  /** Hooks a, ..., b-1 of builder i entered, outermost first. */
  function Entries(i: nat, a: nat, b: nat): seq<Event>
    requires a <= b
    decreases b - a
  {
    if a == b then [] else [Entered(i, a)] + Entries(i, a + 1, b)
  }

  /** The same hooks left, innermost first. */
  function Exits(i: nat, a: nat, b: nat): seq<Event>
    requires a <= b
    decreases b - a
  {
    if a == b then [] else Exits(i, a + 1, b) + [Left(i, a)]
  }

  /** How many hooks of a builder are entered. */
  function HooksEntered(b: Builder): nat {
    match DescentOf(b)
    case Stopped(depth, _) => depth + 1
    case Arrived(_, _, _) => |b.hooks|
  }

  /** The events of builder i on the way down, from hook k on. */
  function DownOf(env: Env, bs: seq<Builder>, i: nat, k: nat): seq<Event>
    requires i < |bs| && k <= HooksEntered(bs[i])
  {
    Entries(i, k, HooksEntered(bs[i])) +
    if DescentOf(bs[i]).Arrived? then [Checked(i, Reaches(env, bs[i]))] else []
  }

  /** Everything that happens before the batch insert, from builder i on. */
  function Down(env: Env, bs: seq<Builder>, i: nat): seq<Event>
    requires i <= |bs|
    decreases |bs| - i
  {
    if i == |bs| then []
    else DownOf(env, bs, i, 0) + if Reaches(env, bs[i]) then Down(env, bs, i + 1) else []
  }

  /** Everything that happens after it. */
  function Up(env: Env, bs: seq<Builder>, i: nat): seq<Event>
    requires i <= |bs|
    decreases |bs| - i
  {
    if i == |bs| then []
    else (if Reaches(env, bs[i]) then Up(env, bs, i + 1) else []) + Exits(i, 0, HooksEntered(bs[i]))
  }

  ghost function Middle(env: Env, bs: seq<Builder>, i: nat): seq<Event> {
    if AllReach(env, bs, i) then [BatchInsert(Batch(bs))] else []
  }

  /** The events of the chain of builders i, i+1, ... */
  ghost function Trace(env: Env, bs: seq<Builder>, i: nat): seq<Event>
    requires i <= |bs|
  {
    Down(env, bs, i) + Middle(env, bs, i) + Up(env, bs, i)
  }

  /** The events of builder i's chain from hook k on. */
  ghost function TraceAt(env: Env, bs: seq<Builder>, i: nat, k: nat): seq<Event>
    requires i < |bs| && k <= HooksEntered(bs[i])
  {
    DownOf(env, bs, i, k) +
    (if Reaches(env, bs[i]) then Trace(env, bs, i + 1) else []) +
    Exits(i, k, HooksEntered(bs[i]))
  }

  lemma Regroup<T>(a: seq<T>, b: seq<T>, c: seq<T>, d: seq<T>, e: seq<T>)
    ensures (a + b) + c + (d + e) == a + (b + c + d) + e
  {
  }

  lemma TraceAtStart(env: Env, bs: seq<Builder>, i: nat)
    requires i < |bs|
    ensures Trace(env, bs, i) == TraceAt(env, bs, i, 0)
  {
    assert AllReach(env, bs, i) <==> Reaches(env, bs[i]) && AllReach(env, bs, i + 1);
    if Reaches(env, bs[i]) {
      Regroup(DownOf(env, bs, i, 0), Down(env, bs, i + 1), Middle(env, bs, i + 1),
              Up(env, bs, i + 1), Exits(i, 0, HooksEntered(bs[i])));
    }
  }

  lemma TraceAtHook(env: Env, bs: seq<Builder>, i: nat, k: nat)
    requires i < |bs| && k < HooksEntered(bs[i])
    ensures TraceAt(env, bs, i, k) == [Entered(i, k)] + TraceAt(env, bs, i, k + 1) + [Left(i, k)]
  {
    assert DownOf(env, bs, i, k) == [Entered(i, k)] + DownOf(env, bs, i, k + 1);
  }

  // ------------------------------------------------------------------ the final state

  function WithKey(row: Option<Rows.Spec>, key: Option<int>): Option<Rows.Spec> {
    if row.Some? then Some(row.value.(idValue := key)) else None
  }

  /** The ID of node j: the driver's key, once the rest of the chain has succeeded. */
  ghost function NodeID(env: Env, bs: seq<Builder>, i: nat, j: nat): int
    requires j < |bs|
  {
    if OutcomeFrom(env, bs, j + 1).Ok? && KeyOf(env, bs, i, j).Some? then KeyOf(env, bs, i, j).value else 0
  }

  /**
   Builder j's link was called: its node and row exist, and it is done iff the rest succeeded or
   the mutation it was called with was done before.
   */
  ghost predicate Settled(env: Env, bs: seq<Builder>, i: nat, j: nat, st: State)
    requires Sized(st, |bs|) && j < |bs|
  {
    && DescentOf(bs[j]).Arrived?
    && st.builders[j].mutation.fields == DescentOf(bs[j]).passed
    && (st.builders[j].mutation.done <==>
          OutcomeFrom(env, bs, j + 1).Ok? || (DescentOf(bs[j]).own && bs[j].mutation.done))
    && (OutcomeFrom(env, bs, j + 1).Ok? ==> st.builders[j].mutation.id == Some(j))
    && st.specs[j] == WithKey(RowOf(bs[j]), KeyOf(env, bs, i, j))
    && st.nodes[j] == Some(Rows.NodeOf(DescentOf(bs[j]).passed).(id := NodeID(env, bs, i, j)))
  }

  /** Builder j's link was not reached: its done mark is as it was, and it has no row or node. */
  ghost predicate Untouched(bs: seq<Builder>, j: nat, st: State)
    requires j < |bs| && Sized(st, |bs|)
  {
    st.builders[j].mutation.done == bs[j].mutation.done && st.specs[j].None? && st.nodes[j].None?
  }

  /** A state in which builders i, i+1, ... have not been called and the earlier ones have been. */
  ghost predicate Ready(bs: seq<Builder>, st: State, i: nat) {
    && Sized(st, |bs|)
    && (forall j :: 0 <= j < i && j < |bs| ==> st.specs[j] == RowOf(bs[j]))
    && (forall j :: i <= j < |bs| ==> st.builders[j] == bs[j] && st.specs[j].None? && st.nodes[j].None?)
  }

  /** What the chain of builders i, i+1, ... does to the state. */
  ghost predicate Effect(env: Env, bs: seq<Builder>, i: nat, st: State, st': State)
    requires Sized(st, |bs|) && Sized(st', |bs|)
  {
    && (forall j :: 0 <= j < i && j < |bs| ==>
          && st'.builders[j] == st.builders[j]
          && st'.nodes[j] == st.nodes[j]
          && st'.specs[j] == WithKey(RowOf(bs[j]), KeyOf(env, bs, i, j)))
    && (forall j :: i <= j < |bs| ==>
          if ReachedBefore(env, bs, i, j + 1) then Settled(env, bs, i, j, st') else Untouched(bs, j, st'))
  }

  // ------------------------------------------------------------------ the run meets the reference

  lemma InsertEffect(env: Env, bs: seq<Builder>, st: State)
    requires Ready(bs, st, |bs|)
    ensures var (st', out) := Insert(env, st);
            && out == BatchOutcome(env, bs)
            && st'.trace == st.trace + Trace(env, bs, |bs|)
            && Effect(env, bs, |bs|, st, st')
  {
    assert st.specs == Batch(bs);
  }

  /** Builder i's link calls the rest of the chain. */
  lemma {:induction false} RestEffect(env: Env, bs: seq<Builder>, i: nat, st: State)
    requires i < |bs| && Ready(bs, st, i + 1)
    ensures var (st', out) := RunRest(env, Mutators(bs), i, st);
            && out == OutcomeFrom(env, bs, i + 1)
            && st'.trace == st.trace + Trace(env, bs, i + 1)
            && Effect(env, bs, i + 1, st, st')
    decreases |bs| - i - 1, 2
  {
    if i + 1 == |bs| {
      InsertEffect(env, bs, st);
    } else {
      HooksEffect(env, bs, i + 1, 0, Own(st, i + 1), st);
      TraceAtStart(env, bs, i + 1);
    }
  }

  /** The state while the hooks of builder i run. */
  ghost predicate Within(bs: seq<Builder>, st: State, i: nat, p: Passed) {
    && i < |bs|
    && Sized(st, |bs|)
    && (forall j :: 0 <= j < i ==> st.specs[j] == RowOf(bs[j]))
    && (forall j :: i <= j < |bs| ==> st.specs[j].None? && st.nodes[j].None?)
    && (forall j :: i < j < |bs| ==> st.builders[j] == bs[j])
    && st.builders[i].mutation.done == bs[i].mutation.done
    && p.mutation.done == (p.own && bs[i].mutation.done)
  }

  /** Nothing but the trace has changed since builder i failed. */
  lemma FailureEffect(env: Env, bs: seq<Builder>, i: nat, p: Passed, st: State, st': State)
    requires Within(bs, st, i, p) && !Reaches(env, bs[i])
    requires st'.specs == st.specs && st'.nodes == st.nodes && st'.builders == st.builders
    ensures Effect(env, bs, i, st, st')
  {
    assert !AllReach(env, bs, i);
    forall j | i <= j < |bs|
      ensures !ReachedBefore(env, bs, i, j + 1) && Untouched(bs, j, st')
    {
    }
  }

  /** The effect of builder i's link, given that of the rest of the chain. */
  lemma LinkSuccessEffect(env: Env, bs: seq<Builder>, i: nat, p: Passed,
                          st: State, built: State, after: State, st': State)
    requires Within(bs, st, i, p) && Reaches(env, bs[i])
    requires p.own == DescentOf(bs[i]).own && p.mutation.fields == DescentOf(bs[i]).passed
    requires built == Build(Log(st, Checked(i, true)), i, p.mutation)
    requires Sized(after, |bs|) && Effect(env, bs, i + 1, built, after)
    requires st' == if OutcomeFrom(env, bs, i + 1).Ok? then Finish(after, i) else after
    ensures Effect(env, bs, i, st, st')
  {
    assert AllReach(env, bs, i) <==> AllReach(env, bs, i + 1);
    assert forall j :: KeyOf(env, bs, i, j) == KeyOf(env, bs, i + 1, j);
    LinkSettles(env, bs, i, p, st, built, after, st');
    forall j | i < j < |bs|
      ensures if ReachedBefore(env, bs, i, j + 1) then Settled(env, bs, i, j, st') else Untouched(bs, j, st')
    {
      LaterStaysSettled(env, bs, i, j, after, st');
    }
  }

  /** A builder that reaches its link does not matter to what the later ones are compared with. */
  lemma ReachedDropsOut(env: Env, bs: seq<Builder>, i: nat, j: nat)
    requires i < j < |bs| && Reaches(env, bs[i])
    ensures ReachedBefore(env, bs, i, j + 1) <==> ReachedBefore(env, bs, i + 1, j + 1)
    ensures KeyOf(env, bs, i, j) == KeyOf(env, bs, i + 1, j)
  {
    assert AllReach(env, bs, i) <==> AllReach(env, bs, i + 1);
  }

  lemma LaterStaysSettled(env: Env, bs: seq<Builder>, i: nat, j: nat, after: State, st': State)
    requires i < j < |bs| && Sized(after, |bs|) && Reaches(env, bs[i])
    requires if ReachedBefore(env, bs, i + 1, j + 1) then Settled(env, bs, i + 1, j, after) else Untouched(bs, j, after)
    requires st' == Finish(after, i) || st' == after
    ensures if ReachedBefore(env, bs, i, j + 1) then Settled(env, bs, i, j, st') else Untouched(bs, j, st')
  {
    ReachedDropsOut(env, bs, i, j);
    FinishLeavesOthers(after, i, j);
    assert NodeID(env, bs, i, j) == NodeID(env, bs, i + 1, j);
  }

  lemma FinishLeavesOthers(st: State, i: nat, j: nat)
    requires Sized(st, |st.builders|) && i < |st.builders| && j < |st.builders| && i != j
    ensures var st' := Finish(st, i);
            st'.builders[j] == st.builders[j] && st'.specs[j] == st.specs[j] && st'.nodes[j] == st.nodes[j]
  {
  }

  lemma LinkSettles(env: Env, bs: seq<Builder>, i: nat, p: Passed, st: State, built: State, after: State, st': State)
    requires Within(bs, st, i, p) && Reaches(env, bs[i])
    requires p.own == DescentOf(bs[i]).own && p.mutation.fields == DescentOf(bs[i]).passed
    requires built == Build(Log(st, Checked(i, true)), i, p.mutation)
    requires Sized(after, |bs|)
    requires after.builders[i] == built.builders[i] && after.nodes[i] == built.nodes[i]
    requires after.specs[i] == WithKey(RowOf(bs[i]), KeyOf(env, bs, i, i))
    requires st' == if OutcomeFrom(env, bs, i + 1).Ok? then Finish(after, i) else after
    ensures Settled(env, bs, i, i, st')
  {
    var node := Rows.NodeOf(p.mutation.fields);
    assert after.nodes[i] == Some(node) && node.id == 0;
    assert after.builders[i].mutation == p.mutation;
  }

  /** A link whose check fails. */
  lemma LinkFails(env: Env, bs: seq<Builder>, i: nat, p: Passed, st: State)
    requires Within(bs, st, i, p) && !Reaches(env, bs[i])
    requires DescentOf(bs[i]) == Arrived(p.own, st.builders[i].mutation.fields, p.mutation.fields)
    ensures var (st', out) := RunLink(env, Mutators(bs), i, p, st);
            && out == LinkOutcome(env, bs, i)
            && st' == Log(st, Checked(i, false))
            && Effect(env, bs, i, st, st')
  {
    FailureEffect(env, bs, i, p, st, Log(st, Checked(i, false)));
  }

  /** A link whose check passes, given what the rest of the chain does. */
  lemma LinkPasses(env: Env, bs: seq<Builder>, i: nat, p: Passed, st: State)
    requires Within(bs, st, i, p) && Reaches(env, bs[i])
    requires DescentOf(bs[i]) == Arrived(p.own, st.builders[i].mutation.fields, p.mutation.fields)
    requires var built := Build(Log(st, Checked(i, true)), i, p.mutation);
             var (after, out) := RunRest(env, Mutators(bs), i, built);
             && out == OutcomeFrom(env, bs, i + 1)
             && after.trace == built.trace + Trace(env, bs, i + 1)
             && Effect(env, bs, i + 1, built, after)
    ensures var (st', out) := RunLink(env, Mutators(bs), i, p, st);
            && out == LinkOutcome(env, bs, i)
            && st'.trace == st.trace + [Checked(i, true)] + Trace(env, bs, i + 1)
            && Effect(env, bs, i, st, st')
  {
    var built := Build(Log(st, Checked(i, true)), i, p.mutation);
    var (after, _) := RunRest(env, Mutators(bs), i, built);
    var (st', _) := RunLink(env, Mutators(bs), i, p, st);
    LinkSuccessEffect(env, bs, i, p, st, built, after, st');
  }

  lemma {:induction false} LinkEffect(env: Env, bs: seq<Builder>, i: nat, p: Passed, st: State)
    requires Within(bs, st, i, p)
    requires DescentOf(bs[i]) == Arrived(p.own, st.builders[i].mutation.fields, p.mutation.fields)
    ensures var (st', out) := RunLink(env, Mutators(bs), i, p, st);
            && out == LinkOutcome(env, bs, i)
            && st'.trace == st.trace + LinkEvents(env, bs, i)
            && Effect(env, bs, i, st, st')
    decreases |bs| - i, 0
  {
    if !Reaches(env, bs[i]) {
      LinkFails(env, bs, i, p, st);
    } else {
      var built := Build(Log(st, Checked(i, true)), i, p.mutation);
      BuiltIsReady(env, bs, i, p, st);
      RestEffect(env, bs, i, built);
      LinkPasses(env, bs, i, p, st);
    }
  }

  lemma BuiltIsReady(env: Env, bs: seq<Builder>, i: nat, p: Passed, st: State)
    requires Within(bs, st, i, p) && Reaches(env, bs[i]) && p.mutation.fields == DescentOf(bs[i]).passed
    ensures Ready(bs, Build(Log(st, Checked(i, true)), i, p.mutation), i + 1)
  {
  }

  /** The events of a link: its check, and if that passes the rest of the chain. */
  ghost function LinkEvents(env: Env, bs: seq<Builder>, i: nat): seq<Event>
    requires i < |bs|
  {
    [Checked(i, Reaches(env, bs[i]))] + if Reaches(env, bs[i]) then Trace(env, bs, i + 1) else []
  }

  lemma LinkTrace(env: Env, bs: seq<Builder>, i: nat)
    requires i < |bs| && DescentOf(bs[i]).Arrived?
    ensures TraceAt(env, bs, i, |bs[i].hooks|) == LinkEvents(env, bs, i)
  {
  }

  /** Handing a field set on keeps the descent on course. */
  lemma HandOnDescends(bs: seq<Builder>, i: nat, k: nat, p: Passed, st: State)
    requires Within(bs, st, i, p) && k < |bs[i].hooks|
    requires p.own ==> p.mutation == st.builders[i].mutation
    requires bs[i].hooks[k].enter(p.mutation.fields).Forward?
    ensures var (st', p') := HandOn(Log(st, Entered(i, k)), i, p, bs[i].hooks[k].enter(p.mutation.fields));
            && Within(bs, st', i, p')
            && (p'.own ==> p'.mutation == st'.builders[i].mutation)
            && (forall j :: 0 <= j < |bs| && j != i ==> st'.builders[j] == st.builders[j])
            && st'.nodes == st.nodes && st'.specs == st.specs && st'.trace == st.trace + [Entered(i, k)]
            && DescentFrom(bs[i].hooks, k + 1, p'.own, st'.builders[i].mutation.fields, p'.mutation.fields) ==
               DescentFrom(bs[i].hooks, k, p.own, st.builders[i].mutation.fields, p.mutation.fields)
  {
  }

  lemma EffectIgnoresTrace(env: Env, bs: seq<Builder>, i: nat, a: State, a': State, b: State, b': State)
    requires Sized(a, |bs|) && Sized(a', |bs|) && Sized(b, |bs|) && Sized(b', |bs|)
    requires Effect(env, bs, i, a, a')
    requires a.nodes == b.nodes && forall j :: 0 <= j < i && j < |bs| ==> a.builders[j] == b.builders[j]
    requires a'.builders == b'.builders && a'.specs == b'.specs && a'.nodes == b'.nodes
    ensures Effect(env, bs, i, b, b')
  {
    forall j | i <= j < |bs|
      ensures if ReachedBefore(env, bs, i, j + 1) then Settled(env, bs, i, j, b') else Untouched(bs, j, b')
    {
      assert if ReachedBefore(env, bs, i, j + 1) then Settled(env, bs, i, j, a') else Untouched(bs, j, a');
    }
  }

  lemma {:induction false} HooksEffect(env: Env, bs: seq<Builder>, i: nat, k: nat, p: Passed, st: State)
    requires Within(bs, st, i, p) && k <= HooksEntered(bs[i])
    requires p.own ==> p.mutation == st.builders[i].mutation
    requires k <= |bs[i].hooks|
    requires DescentOf(bs[i]) ==
             DescentFrom(bs[i].hooks, k, p.own, st.builders[i].mutation.fields, p.mutation.fields)
    ensures var (st', out) := Mutate(env, Mutators(bs), i, Wrap(bs[i].hooks, k), p, st);
            && out == Ascent(bs[i].hooks, k, p.mutation.fields, LinkOutcome(env, bs, i))
            && st'.trace == st.trace + TraceAt(env, bs, i, k)
            && Effect(env, bs, i, st, st')
    decreases |bs| - i, 1, |bs[i].hooks| - k
  {
    var hooks, ms := bs[i].hooks, Mutators(bs);
    if k == |hooks| {
      LinkEffect(env, bs, i, p, st);
      LinkTrace(env, bs, i);
    } else {
      TraceAtHook(env, bs, i, k);
      var entry := hooks[k].enter(p.mutation.fields);
      if entry.Return? {
        var (st', _) := Mutate(env, ms, i, Wrap(hooks, k), p, st);
        FailureEffect(env, bs, i, p, st, st');
      } else {
        HandOnDescends(bs, i, k, p, st);
        var (handed, p') := HandOn(Log(st, Entered(i, k)), i, p, entry);
        HooksEffect(env, bs, i, k + 1, p', handed);
        var (after, _) := Mutate(env, ms, i, Wrap(hooks, k + 1), p', handed);
        EffectIgnoresTrace(env, bs, i, handed, after, st, Log(after, Left(i, k)));
      }
    }
  }
}
