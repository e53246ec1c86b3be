/**
 `AccountCreateBulk.Save`: every builder's hooks wrap the whole rest of the chain, and the
 innermost link performs the one batch insert. Closures are kept as data (`Mutator`), so that a
 run is a function of the builders, the hooks and the database's answer.
 */
module BulkCreate {
  import opened Options
  import opened AccountSchema
  import opened AccountBuilder
  import Rows = AccountRows

  datatype Error =
    | Preset(code: int)
    | Check(e: BuildError)
    | FromHook(code: int)
    | Database(message: string)
    | Constraint(wrapped: Error)

  datatype Outcome = Ok | Err(e: Error)

  /**
   What a hook does on the way in: return without calling the next mutator, or call it with the
   given field set, either written into the mutation it received or carried by another mutation.
   */
  datatype Entry = Return(out: Outcome) | Forward(fields: Fields, substitute: bool)

  /** On the way out a hook sees what it was given and how the rest of the chain ended. */
  datatype Hook = Hook(enter: Fields -> Entry, leave: (Fields, Outcome) -> Outcome)

  /** A hook that fails or calls next, and never turns an error into success. */
  ghost predicate Proper(h: Hook) {
    && (forall f :: h.enter(f).Return? ==> h.enter(f).out.Err?)
    && (forall f, e :: h.leave(f, Err(e)).Err?)
  }

  /** `id` is a pointer to the ID of the node at that index. */
  datatype Mutation = Mutation(fields: Fields, id: Option<nat>, done: bool)

  datatype Builder = Builder(hooks: seq<Hook>, mutation: Mutation)

  datatype BatchAnswer = Failed(message: string, constraint: bool) | Inserted(ids: nat -> Option<int>)

  type Specs = seq<Option<Rows.Spec>>
  type Nodes = seq<Option<Rows.Account>>

  /** What a run depends on besides the builders: defaults, the check and the database. */
  datatype Env = Env(defaults: Defaults, check: Fields -> Option<BuildError>, batch: Specs -> BatchAnswer)

  /** The check is the account builder's own. */
  ghost predicate ChecksWith(env: Env, v: Validators) {
    forall m :: env.check(m) == AccountBuilder.Check(v, m)
  }

  datatype Event =
    | Entered(builder: nat, hook: nat)
    | Left(builder: nat, hook: nat)
    | Checked(builder: nat, passed: bool)
    | BatchInsert(specs: Specs)

  datatype State = State(builders: seq<Builder>, specs: Specs, nodes: Nodes, trace: seq<Event>)

  /** The closure chain of one builder: its hooks around its own link. */
  datatype Mutator = Link | Wrapped(index: nat, hook: Hook, next: Mutator)

  /** A mutation on its way down the chain: the builder's own, or one a hook put in its place. */
  datatype Passed = Passed(own: bool, mutation: Mutation)

  predicate Sized(st: State, n: nat) {
    |st.builders| == |st.specs| == |st.nodes| == n
  }

  // ------------------------------------------------------------------ one step of each kind

  function Log(st: State, e: Event): State {
    st.(trace := st.trace + [e])
  }

  function SetMutation(st: State, i: nat, m: Mutation): State
    requires i < |st.builders|
  {
    st.(builders := st.builders[i := st.builders[i].(mutation := m)])
  }

  /** A hook hands on a field set; editing the builder's own mutation changes the builder. */
  function HandOn(st: State, i: nat, p: Passed, entry: Entry): (r: (State, Passed))
    requires i < |st.builders| && entry.Forward?
    ensures |r.0.builders| == |st.builders| && r.0.specs == st.specs && r.0.nodes == st.nodes
  {
    if entry.substitute then (st, Passed(false, Mutation(entry.fields, None, false)))
    else
      var m := p.mutation.(fields := entry.fields);
      (if p.own then SetMutation(st, i, m) else st, Passed(p.own, m))
  }

  /** The builder adopts the mutation and has its node and spec built. */
  function Build(st: State, i: nat, m: Mutation): (r: State)
    requires Sized(st, |st.builders|) && i < |st.builders|
    ensures Sized(r, |st.builders|) && r.trace == st.trace
  {
    SetMutation(st, i, m).(
      nodes := st.nodes[i := Some(Rows.NodeOf(m.fields))],
      specs := st.specs[i := Some(Rows.SpecOf(m.fields))])
  }

  function Keyed(specs: Specs, ids: nat -> Option<int>): (r: Specs)
    ensures |r| == |specs|
  {
    seq(|specs|, j requires 0 <= j < |specs| =>
      if specs[j].Some? then Some(specs[j].value.(idValue := ids(j))) else None)
  }

  /** The batch insert; on success the driver writes the generated keys into the specs. */
  function Insert(env: Env, st: State): (r: (State, Outcome))
    ensures |r.0.specs| == |st.specs| && r.0.builders == st.builders && r.0.nodes == st.nodes
  {
    var logged := Log(st, BatchInsert(st.specs));
    match env.batch(st.specs)
    case Failed(msg, constraint) =>
      (logged, Err(if constraint then Constraint(Database(msg)) else Database(msg)))
    case Inserted(ids) =>
      (logged.(specs := Keyed(st.specs, ids)), Ok)
  }

  /** After the rest of the chain succeeded: take over the key and mark the mutation done. */
  function Finish(st: State, i: nat): (r: State)
    requires Sized(st, |st.builders|) && i < |st.builders|
    ensures Sized(r, |st.builders|) && r.trace == st.trace
  {
    var marked := SetMutation(st, i, st.builders[i].mutation.(id := Some(i), done := true));
    if st.specs[i].Some? && st.nodes[i].Some? && st.specs[i].value.idValue.Some?
    then marked.(nodes := st.nodes[i := Some(st.nodes[i].value.(id := st.specs[i].value.idValue.value))])
    else marked
  }

  // ------------------------------------------------------------------ the chain

  /** Calling a mutator of builder i. */
  function Mutate(env: Env, ms: seq<Mutator>, i: nat, m: Mutator, p: Passed, st: State): (r: (State, Outcome))
    requires Sized(st, |ms|) && i < |ms|
    ensures Sized(r.0, |ms|)
    decreases |ms| - i, 1, m
  {
    match m
    case Link => RunLink(env, ms, i, p, st)
    case Wrapped(k, hook, next) =>
      var entered := Log(st, Entered(i, k));
      var entry := hook.enter(p.mutation.fields);
      if entry.Return? then (Log(entered, Left(i, k)), entry.out)
      else
        var (handed, p') := HandOn(entered, i, p, entry);
        var (after, out) := Mutate(env, ms, i, next, p', handed);
        (Log(after, Left(i, k)), hook.leave(p.mutation.fields, out))
  }

  /** The innermost function of builder i's chain. */
  function RunLink(env: Env, ms: seq<Mutator>, i: nat, p: Passed, st: State): (r: (State, Outcome))
    requires Sized(st, |ms|) && i < |ms|
    ensures Sized(r.0, |ms|)
    decreases |ms| - i, 0
  {
    var verdict := env.check(st.builders[i].mutation.fields);
    var logged := Log(st, Checked(i, verdict.None?));
    if verdict.Some? then (logged, Err(Check(verdict.value)))
    else
      var built := Build(logged, i, p.mutation);
      var (after, out) := RunRest(env, ms, i, built);
      if out.Err? then (after, out) else (Finish(after, i), Ok)
  }

  /** What builder i's link calls: the next builder's chain, or the batch insert. */
  function RunRest(env: Env, ms: seq<Mutator>, i: nat, st: State): (r: (State, Outcome))
    requires Sized(st, |ms|) && i < |ms|
    ensures Sized(r.0, |ms|)
    decreases |ms| - i - 1, 2
  {
    if i < |ms| - 1 then Mutate(env, ms, i + 1, ms[i + 1], Own(st, i + 1), st) else Insert(env, st)
  }

  function Own(st: State, i: nat): Passed
    requires i < |st.builders|
  {
    Passed(true, st.builders[i].mutation)
  }

  /** Hook k and everything inside it: outermost first. */
  function Wrap(hooks: seq<Hook>, k: nat): Mutator
    requires k <= |hooks|
    decreases |hooks| - k
  {
    if k == |hooks| then Link else Wrapped(k, hooks[k], Wrap(hooks, k + 1))
  }

  function Mutators(builders: seq<Builder>): (ms: seq<Mutator>)
    ensures |ms| == |builders|
  {
    seq(|builders|, i requires 0 <= i < |builders| => Wrap(builders[i].hooks, 0))
  }

  /** The state in which the first mutator is called: every builder has had its defaults. */
  function Prepared(d: Defaults, b: Builder): Builder {
    b.(mutation := b.mutation.(fields := AfterDefaults(d, b.mutation.fields)))
  }

  function Start(env: Env, builders: seq<Builder>): (st: State)
    ensures Sized(st, |builders|)
  {
    State(seq(|builders|, i requires 0 <= i < |builders| => Prepared(env.defaults, builders[i])),
          seq(|builders|, _ => None), seq(|builders|, _ => None), [])
  }

  /** A whole save: the final state and how it ended. */
  function SaveRun(env: Env, builders: seq<Builder>): (r: (State, Outcome))
    ensures Sized(r.0, |builders|)
  {
    var st := Start(env, builders);
    if builders == [] then (st, Ok)
    else
      var ms := Mutators(builders);
      Mutate(env, ms, 0, ms[0], Own(st, 0), st)
  }

  // ------------------------------------------------------------------ the builder object

  datatype Saved = Nodes(nodes: Nodes) | NotSaved(e: Error)

  class AccountCreateBulk {
    const env: Env
    var err: Option<Error>
    var builders: seq<Builder>
    var specs: Specs
    var nodes: Nodes
    var mutators: seq<Mutator>
    var trace: seq<Event>

    constructor (env: Env, err: Option<Error>, builders: seq<Builder>)
      ensures this.env == env && this.err == err && this.builders == builders && trace == []
    {
      this.env, this.err, this.builders := env, err, builders;
      specs, nodes, mutators, trace := [], [], [], [];
    }

    function View(): State
      reads this
    {
      State(builders, specs, nodes, trace)
    }


    /** Wraps a builder's hooks around its own link, innermost first. */
    method BuildMutator(hooks: seq<Hook>) returns (mut: Mutator)
      ensures mut == Wrap(hooks, 0)
    {
      mut := Link;
      var k := |hooks|;
      while k > 0
        invariant 0 <= k <= |hooks|
        invariant mut == Wrap(hooks, k)
      {
        k := k - 1;
        mut := Wrapped(k, hooks[k], mut);
      }
    }

    method Call(i: nat, m: Mutator, p: Passed) returns (out: Outcome)
      requires Sized(View(), |mutators|) && i < |mutators|
      modifies this`builders, this`specs, this`nodes, this`trace
      ensures (View(), out) == Mutate(env, mutators, i, m, p, old(View()))
      decreases |mutators| - i, 1, m
    {
      match m
      case Link =>
        out := CallLink(i, p);
      case Wrapped(k, hook, next) =>
        trace := trace + [Entered(i, k)];
        var entry := hook.enter(p.mutation.fields);
        if entry.Return? {
          trace := trace + [Left(i, k)];
          return entry.out;
        }
        var passed := Passed(false, Mutation(entry.fields, None, false));
        if !entry.substitute {
          passed := Passed(p.own, p.mutation.(fields := entry.fields));
          if p.own {
            builders := builders[i := builders[i].(mutation := passed.mutation)];
          }
        }
        var inner := Call(i, next, passed);
        trace := trace + [Left(i, k)];
        return hook.leave(p.mutation.fields, inner);
    }

    method CallLink(i: nat, p: Passed) returns (out: Outcome)
      requires Sized(View(), |mutators|) && i < |mutators|
      modifies this`builders, this`specs, this`nodes, this`trace
      ensures (View(), out) == RunLink(env, mutators, i, p, old(View()))
      decreases |mutators| - i, 0
    {
      var verdict := env.check(builders[i].mutation.fields);
      trace := trace + [Checked(i, verdict.None?)];
      if verdict.Some? {
        return Err(Check(verdict.value));
      }
      CreateSpec(i, p.mutation);
      out := CallRest(i);
      if out.Ok? {
        MarkDone(i);
      }
    }

    method CallRest(i: nat) returns (out: Outcome)
      requires Sized(View(), |mutators|) && i < |mutators|
      modifies this`builders, this`specs, this`nodes, this`trace
      ensures (View(), out) == RunRest(env, mutators, i, old(View()))
      decreases |mutators| - i - 1, 2
    {
      if i < |mutators| - 1 {
        out := Call(i + 1, mutators[i + 1], Passed(true, builders[i + 1].mutation));
      } else {
        out := BatchCreate();
      }
    }

    method CreateSpec(i: nat, m: Mutation)
      requires Sized(View(), |builders|) && i < |builders|
      modifies this`builders, this`specs, this`nodes
      ensures View() == Build(old(View()), i, m)
    {
      builders := builders[i := builders[i].(mutation := m)];
      nodes := nodes[i := Some(Rows.NodeOf(m.fields))];
      specs := specs[i := Some(Rows.SpecOf(m.fields))];
    }

    method MarkDone(i: nat)
      requires Sized(View(), |builders|) && i < |builders|
      modifies this`builders, this`nodes
      ensures View() == Finish(old(View()), i)
    {
      builders := builders[i := builders[i].(mutation := builders[i].mutation.(id := Some(i)))];
      if specs[i].Some? && nodes[i].Some? && specs[i].value.idValue.Some? {
        nodes := nodes[i := Some(nodes[i].value.(id := specs[i].value.idValue.value))];
      }
      builders := builders[i := builders[i].(mutation := builders[i].mutation.(done := true))];
    }

    method BatchCreate() returns (out: Outcome)
      modifies this`specs, this`trace
      ensures (View(), out) == Insert(env, old(View()))
    {
      trace := trace + [BatchInsert(specs)];
      match env.batch(specs)
      case Failed(msg, constraint) =>
        return Err(if constraint then Constraint(Database(msg)) else Database(msg));
      case Inserted(ids) =>
        specs := Keyed(specs, ids);
        return Ok;
    }

    /** Gives builder i its defaults; the error they may report is dropped. */
    method FillDefaults(i: nat)
      requires i < |builders|
      modifies this`builders
      ensures builders == old(builders)[i := Prepared(env.defaults, old(builders)[i])]
    {
      var create := new AccountCreate(builders[i].mutation.fields);
      var dropped := create.SetDefaults(env.defaults);
      builders := builders[i := builders[i].(mutation := builders[i].mutation.(fields := create.mutation))];
    }

    /** Saves all builders; a preset error is returned before anything is touched. */
    method Save() returns (r: Saved)
      modifies this`builders, this`specs, this`nodes, this`mutators, this`trace
      ensures old(err).Some? ==> r == NotSaved(old(err).value) && View() == old(View())
      ensures old(err).None? ==>
                var (st, out) := SaveRun(env, old(builders));
                && View() == st
                && r == (if out.Ok? then Nodes(st.nodes) else NotSaved(out.e))
    {
      if err.Some? {
        return NotSaved(err.value);
      }
      Prepare();
      if |mutators| > 0 {
        var out := Call(0, mutators[0], Passed(true, builders[0].mutation));
        if out.Err? {
          return NotSaved(out.e);
        }
      }
      return Nodes(nodes);
    }

    /** Gives every builder its defaults and its chain. */
    method Prepare()
      modifies this`builders, this`specs, this`nodes, this`mutators, this`trace
      ensures View() == Start(env, old(builders)) && mutators == Mutators(old(builders))
    {
      var n := |builders|;
      specs := seq(n, _ => None);
      nodes := seq(n, _ => None);
      mutators := [];
      trace := [];
      ghost var start := Start(env, old(builders));
      for i := 0 to n
        invariant |builders| == n && |mutators| == i
        invariant specs == start.specs && nodes == start.nodes && trace == []
        invariant forall j :: 0 <= j < i ==> builders[j] == start.builders[j]
        invariant forall j :: i <= j < n ==> builders[j] == old(builders)[j]
        invariant forall j :: 0 <= j < i ==> mutators[j] == Wrap(old(builders)[j].hooks, 0)
      {
        FillDefaults(i);
        var mut := BuildMutator(builders[i].hooks);
        mutators := mutators + [mut];
      }
      assert forall j :: 0 <= j < n ==> builders[j] == start.builders[j];
      assert builders == start.builders;
      assert mutators == Mutators(old(builders));
    }
  }
}
