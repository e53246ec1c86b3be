/** The guarantees of a bulk save, read off its runs. */
module BulkCreateTheorems {
  import opened Options
  import opened AccountSchema
  import opened AccountBuilder
  import opened BulkCreate
  import opened BulkCreateRuns
  import AccountFields
  import Rows = AccountRows

  /** The builders as they stand when the first mutator is called. */
  function Begun(env: Env, builders: seq<Builder>): (bs: seq<Builder>)
    ensures |bs| == |builders|
    ensures forall j :: 0 <= j < |bs| ==> bs[j].hooks == builders[j].hooks
  {
    Start(env, builders).builders
  }

  /** A whole save is the reference run of its prepared builders. */
  lemma SaveFollowsReference(env: Env, builders: seq<Builder>)
    requires builders != []
    ensures var bs := Begun(env, builders);
            var (st, out) := SaveRun(env, builders);
            && st.trace == Trace(env, bs, 0)
            && out == OutcomeFrom(env, bs, 0)
            && Effect(env, bs, 0, Start(env, builders), st)
  {
    var bs, st := Begun(env, builders), Start(env, builders);
    assert Mutators(bs) == Mutators(builders);
    HooksEffect(env, bs, 0, 0, Own(st, 0), st);
    TraceAtStart(env, bs, 0);
    assert [] + Trace(env, bs, 0) == Trace(env, bs, 0);
  }

  lemma SaveTrace(env: Env, builders: seq<Builder>)
    requires builders != []
    ensures SaveRun(env, builders).0.trace == Trace(env, Begun(env, builders), 0)
  {
    SaveFollowsReference(env, builders);
  }

  // ------------------------------------------------------------------ nesting

  /** What `pick` finds in the events of a trace, in order. */
  function Collect<T>(t: seq<Event>, pick: Event -> seq<T>): seq<T> {
    if t == [] then [] else pick(t[0]) + Collect(t[1..], pick)
  }

  function EntryOf(e: Event): seq<(nat, nat)> {
    if e.Entered? then [(e.builder, e.hook)] else []
  }

  function ExitOf(e: Event): seq<(nat, nat)> {
    if e.Left? then [(e.builder, e.hook)] else []
  }

  function BatchOf(e: Event): seq<Specs> {
    if e.BatchInsert? then [e.specs] else []
  }

  function Reversed<T>(s: seq<T>): seq<T> {
    if s == [] then [] else Reversed(s[1..]) + [s[0]]
  }

  lemma {:induction false} CollectDistributes<T>(a: seq<Event>, b: seq<Event>, pick: Event -> seq<T>)
    ensures Collect(a + b, pick) == Collect(a, pick) + Collect(b, pick)
  {
    if a == [] {
      assert a + b == b;
    } else {
      assert (a + b)[0] == a[0] && (a + b)[1..] == a[1..] + b;
      CollectDistributes(a[1..], b, pick);
    }
  }

  lemma {:induction false} CollectNothing<T>(t: seq<Event>, pick: Event -> seq<T>)
    requires forall e :: e in t ==> pick(e) == []
    ensures Collect(t, pick) == []
  {
    if t != [] {
      CollectNothing(t[1..], pick);
    }
  }

  lemma {:induction false} ReversedDistributes<T>(a: seq<T>, b: seq<T>)
    ensures Reversed(a + b) == Reversed(b) + Reversed(a)
  {
    if a == [] {
      assert a + b == b;
    } else {
      assert (a + b)[0] == a[0] && (a + b)[1..] == a[1..] + b;
      ReversedDistributes(a[1..], b);
    }
  }

  /** All hooks of builders i, i+1, ..., outermost first within each builder. */
  function AllHooks(bs: seq<Builder>, i: nat): seq<(nat, nat)>
    requires i <= |bs|
    decreases |bs| - i
  {
    if i == |bs| then [] else Indices(i, 0, |bs[i].hooks|) + AllHooks(bs, i + 1)
  }

  function Indices(i: nat, a: nat, b: nat): seq<(nat, nat)>
    requires a <= b
    decreases b - a
  {
    if a == b then [] else [(i, a)] + Indices(i, a + 1, b)
  }

  lemma {:induction false} HookRange(i: nat, a: nat, b: nat)
    requires a <= b
    ensures Collect(Entries(i, a, b), EntryOf) == Indices(i, a, b)
    ensures Collect(Exits(i, a, b), ExitOf) == Reversed(Indices(i, a, b))
    ensures forall e :: e in Entries(i, a, b) ==> e.Entered?
    ensures forall e :: e in Exits(i, a, b) ==> e.Left?
    decreases b - a
  {
    if a < b {
      HookRange(i, a + 1, b);
      CollectDistributes([Entered(i, a)], Entries(i, a + 1, b), EntryOf);
      CollectDistributes(Exits(i, a + 1, b), [Left(i, a)], ExitOf);
      assert Collect([Entered(i, a)], EntryOf) == [(i, a)] && Collect([Left(i, a)], ExitOf) == [(i, a)];
    }
  }

  lemma {:induction false} IndicesSplit(i: nat, a: nat, b: nat, c: nat)
    requires a <= b <= c
    ensures Indices(i, a, c) == Indices(i, a, b) + Indices(i, b, c)
    decreases b - a
  {
    if a < b {
      IndicesSplit(i, a + 1, b, c);
    }
  }

  /** The hooks of builder i entered on the way down. */
  lemma OwnEntries(env: Env, bs: seq<Builder>, i: nat)
    requires i < |bs|
    ensures forall e :: e in DownOf(env, bs, i, 0) ==> e.Entered? || e.Checked?
    ensures Collect(DownOf(env, bs, i, 0), EntryOf) == Indices(i, 0, HooksEntered(bs[i]))
  {
    var n := HooksEntered(bs[i]);
    var checks := if DescentOf(bs[i]).Arrived? then [Checked(i, Reaches(env, bs[i]))] else [];
    HookRange(i, 0, n);
    CollectDistributes(Entries(i, 0, n), checks, EntryOf);
    CollectNothing(checks, EntryOf);
  }

  /** The hooks entered from builder i on. */
  lemma DownStep(env: Env, bs: seq<Builder>, i: nat)
    requires i < |bs|
    ensures forall e :: e in DownOf(env, bs, i, 0) ==> e.Entered? || e.Checked?
    ensures Collect(Down(env, bs, i), EntryOf) ==
            Indices(i, 0, HooksEntered(bs[i])) +
            (if Reaches(env, bs[i]) then Collect(Down(env, bs, i + 1), EntryOf) else [])
  {
    OwnEntries(env, bs, i);
    var here := DownOf(env, bs, i, 0);
    if Reaches(env, bs[i]) {
      CollectDistributes(here, Down(env, bs, i + 1), EntryOf);
    } else {
      assert Down(env, bs, i) == here;
    }
  }

  /** They are a prefix of all hooks, and all of them if all builders reach their link. */
  lemma {:induction false} EntriesGoDown(env: Env, bs: seq<Builder>, i: nat)
    requires i <= |bs|
    ensures forall e :: e in Down(env, bs, i) ==> e.Entered? || e.Checked?
    ensures Collect(Down(env, bs, i), EntryOf) <= AllHooks(bs, i)
    ensures AllReach(env, bs, i) ==> Collect(Down(env, bs, i), EntryOf) == AllHooks(bs, i)
    decreases |bs| - i
  {
    if i < |bs| {
      DownStep(env, bs, i);
      EntriesGoDown(env, bs, i + 1);
      IndicesSplit(i, 0, HooksEntered(bs[i]), |bs[i].hooks|);
    }
  }

  /** The hooks left from builder i on: those entered, in reverse. */
  lemma {:induction false} ExitsMirrorEntries(env: Env, bs: seq<Builder>, i: nat)
    requires i <= |bs|
    ensures forall e :: e in Up(env, bs, i) ==> e.Left?
    ensures Collect(Up(env, bs, i), ExitOf) == Reversed(Collect(Down(env, bs, i), EntryOf))
    decreases |bs| - i
  {
    if i < |bs| {
      var n := HooksEntered(bs[i]);
      var reaches := Reaches(env, bs[i]);
      var outer := if reaches then Up(env, bs, i + 1) else [];
      ExitsMirrorEntries(env, bs, i + 1);
      DownStep(env, bs, i);
      HookRange(i, 0, n);
      CollectDistributes(outer, Exits(i, 0, n), ExitOf);
      ReversedDistributes(Indices(i, 0, n), if reaches then Collect(Down(env, bs, i + 1), EntryOf) else []);
    }
  }

  /** Every check that passed is on the way down. */
  lemma {:induction false} ChecksPrecede(env: Env, bs: seq<Builder>, i: nat, j: nat)
    requires i <= j < |bs| && AllReach(env, bs, i)
    ensures Checked(j, true) in Down(env, bs, i)
    decreases |bs| - i
  {
    assert Reaches(env, bs[i]);
    CheckIsLast(env, bs, i, Checked(j, true));
    if i < j {
      assert AllReach(env, bs, i + 1);
      ChecksPrecede(env, bs, i + 1, j);
    }
  }

  /** A builder that reaches its link has its check on the way down, before the next builder's events. */
  lemma CheckIsLast(env: Env, bs: seq<Builder>, i: nat, later: Event)
    requires i < |bs| && Reaches(env, bs[i])
    ensures later in Down(env, bs, i + 1) ==> later in Down(env, bs, i)
    ensures Checked(i, true) in Down(env, bs, i)
  {
    var here := DownOf(env, bs, i, 0);
    assert here[|here| - 1] == Checked(i, true);
    assert Down(env, bs, i) == here + Down(env, bs, i + 1);
  }

  /** Collecting from a trace, part by part. */
  lemma CollectTrace<T>(env: Env, bs: seq<Builder>, pick: Event -> seq<T>)
    ensures Collect(Trace(env, bs, 0), pick) ==
            Collect(Down(env, bs, 0), pick) + Collect(Middle(env, bs, 0), pick) + Collect(Up(env, bs, 0), pick)
  {
    CollectDistributes(Down(env, bs, 0) + Middle(env, bs, 0), Up(env, bs, 0), pick);
    CollectDistributes(Down(env, bs, 0), Middle(env, bs, 0), pick);
  }

  lemma TraceEntries(env: Env, bs: seq<Builder>)
    ensures Collect(Trace(env, bs, 0), EntryOf) == Collect(Down(env, bs, 0), EntryOf)
  {
    ExitsMirrorEntries(env, bs, 0);
    CollectTrace(env, bs, EntryOf);
    CollectNothing(Middle(env, bs, 0), EntryOf);
    CollectNothing(Up(env, bs, 0), EntryOf);
  }

  lemma TraceExits(env: Env, bs: seq<Builder>)
    ensures Collect(Trace(env, bs, 0), ExitOf) == Collect(Up(env, bs, 0), ExitOf)
  {
    EntriesGoDown(env, bs, 0);
    CollectTrace(env, bs, ExitOf);
    CollectNothing(Middle(env, bs, 0), ExitOf);
    CollectNothing(Down(env, bs, 0), ExitOf);
  }

  /**
   The trace of every save is well nested: hooks are entered in builder order, outermost first,
   and left in exactly the reverse order; everything entered is left; and the batch insert sits
   between the last entry and the first exit.
   */
  lemma SaveIsWellNested(env: Env, builders: seq<Builder>)
    requires builders != []
    ensures var bs := Begun(env, builders);
            var t := SaveRun(env, builders).0.trace;
            && t == Down(env, bs, 0) + Middle(env, bs, 0) + Up(env, bs, 0)
            && (forall e :: e in Down(env, bs, 0) ==> e.Entered? || e.Checked?)
            && (forall e :: e in Up(env, bs, 0) ==> e.Left?)
            && Collect(t, EntryOf) <= AllHooks(bs, 0)
            && Collect(t, ExitOf) == Reversed(Collect(t, EntryOf))
  {
    var bs := Begun(env, builders);
    SaveTrace(env, builders);
    TraceEntries(env, bs);
    TraceExits(env, bs);
    EntriesGoDown(env, bs, 0);
    ExitsMirrorEntries(env, bs, 0);
  }

  /** The batch inserts of a trace are those of its middle. */
  lemma TraceBatches(env: Env, bs: seq<Builder>)
    ensures Collect(Trace(env, bs, 0), BatchOf) == if AllReach(env, bs, 0) then [Batch(bs)] else []
  {
    EntriesGoDown(env, bs, 0);
    ExitsMirrorEntries(env, bs, 0);
    CollectTrace(env, bs, BatchOf);
    CollectNothing(Down(env, bs, 0), BatchOf);
    CollectNothing(Up(env, bs, 0), BatchOf);
    assert AllReach(env, bs, 0) ==> Collect([BatchInsert(Batch(bs))], BatchOf) == [Batch(bs)];
  }

  /**
   The batch insert happens exactly once, with every builder's row in builder order and after
   every check has passed, if no entry hook and no check fails; otherwise it does not happen.
   */
  lemma BatchInsertedExactlyOnce(env: Env, builders: seq<Builder>)
    requires builders != []
    ensures var bs := Begun(env, builders);
            var t := SaveRun(env, builders).0.trace;
            && Collect(t, BatchOf) == (if AllReach(env, bs, 0) then [Batch(bs)] else [])
            && (AllReach(env, bs, 0) ==>
                  forall j :: 0 <= j < |bs| ==>
                    && Batch(bs)[j] == Some(Rows.SpecOf(DescentOf(bs[j]).passed))
                    && Checked(j, true) in Down(env, bs, 0))
  {
    var bs := Begun(env, builders);
    SaveTrace(env, builders);
    TraceBatches(env, bs);
    if AllReach(env, bs, 0) {
      forall j | 0 <= j < |bs|
        ensures Batch(bs)[j] == Some(Rows.SpecOf(DescentOf(bs[j]).passed)) && Checked(j, true) in Down(env, bs, 0)
      {
        assert Reaches(env, bs[j]);
        ChecksPrecede(env, bs, 0, j);
      }
    }
  }

  /** No builders: nothing is inserted and the save succeeds. */
  lemma EmptySave(env: Env)
    ensures SaveRun(env, []) == (State([], [], [], []), Ok)
  {
  }

  // ------------------------------------------------------------------ outcomes

  /** No mutation is marked done before the save. */
  ghost predicate Undone(bs: seq<Builder>) {
    forall j :: 0 <= j < |bs| ==> !bs[j].mutation.done
  }

  ghost predicate AllProper(bs: seq<Builder>) {
    forall j, k :: 0 <= j < |bs| && 0 <= k < |bs[j].hooks| ==> Proper(bs[j].hooks[k])
  }

  ghost predicate ProperHooks(hooks: seq<Hook>) {
    forall k :: 0 <= k < |hooks| ==> Proper(hooks[k])
  }

  /** Proper hooks pass errors out, and a hook that stops the chain makes it fail. */
  lemma {:induction false} AscentKeepsErrors(hooks: seq<Hook>, k: nat, own: bool, mine: Fields, f: Fields,
                                             bottom: Outcome)
    requires ProperHooks(hooks) && k <= |hooks|
    ensures bottom.Err? || DescentFrom(hooks, k, own, mine, f).Stopped? ==> Ascent(hooks, k, f, bottom).Err?
    decreases |hooks| - k
  {
    if k < |hooks| {
      var h := hooks[k];
      assert Proper(h);
      match h.enter(f)
      case Return(_) =>
      case Forward(g, substitute) =>
        var still := own && !substitute;
        AscentKeepsErrors(hooks, k + 1, still, if still then g else mine, g, bottom);
    }
  }

  /** The chain from builder i on succeeds iff it reaches the database, the batch succeeds and no exit hook fails. */
  lemma {:induction false} ChainSucceedsIff(env: Env, bs: seq<Builder>, i: nat)
    requires AllProper(bs) && i <= |bs|
    ensures OutcomeFrom(env, bs, i).Ok? <==>
              && AllReach(env, bs, i)
              && BatchOutcome(env, bs).Ok?
              && forall j :: i <= j < |bs| ==> LetsSuccessOut(bs[j])
    decreases |bs| - i
  {
    if i < |bs| {
      var b := bs[i];
      var f := b.mutation.fields;
      assert ProperHooks(b.hooks);
      ChainSucceedsIff(env, bs, i + 1);
      AscentKeepsErrors(b.hooks, 0, true, f, f, LinkOutcome(env, bs, i));
      AscentKeepsErrors(b.hooks, 0, true, f, f, Ok);
      assert AllReach(env, bs, i) <==> Reaches(env, b) && AllReach(env, bs, i + 1);
    }
  }

  /** `Save` returns nodes iff no entry hook, check, batch or exit hook fails. */
  lemma SaveSucceedsIff(env: Env, builders: seq<Builder>)
    requires builders != [] && AllProper(builders)
    ensures var bs := Begun(env, builders);
            SaveRun(env, builders).1.Ok? <==>
              && AllReach(env, bs, 0)
              && BatchOutcome(env, bs).Ok?
              && forall j :: 0 <= j < |bs| ==> LetsSuccessOut(bs[j])
  {
    SaveFollowsReference(env, builders);
    ChainSucceedsIff(env, Begun(env, builders), 0);
  }

  /**
   When a save ends, with or without an error, the builders marked done are a suffix of the list;
   none is done unless the batch was inserted; and after a successful save all are done, each
   with the key of its own row.
   */
  lemma DoneIsSuffix(env: Env, builders: seq<Builder>)
    requires builders != [] && Undone(builders) && AllProper(builders)
    ensures var bs := Begun(env, builders);
            var (st, out) := SaveRun(env, builders);
            && (forall j, l :: 0 <= j < l < |bs| && st.builders[j].mutation.done ==> st.builders[l].mutation.done)
            && (!AllReach(env, bs, 0) || BatchOutcome(env, bs).Err? ==>
                  forall j :: 0 <= j < |bs| ==> !st.builders[j].mutation.done)
            && (AllReach(env, bs, 0) && BatchOutcome(env, bs).Ok? ==> st.builders[|bs| - 1].mutation.done)
            && (forall j :: 0 <= j < |bs| && st.builders[j].mutation.done ==> DoneNode(env, bs, st, j))
            && (out.Ok? ==> forall j :: 0 <= j < |bs| ==> st.builders[j].mutation.done)
  {
    var bs := Begun(env, builders);
    var (st, out) := SaveRun(env, builders);
    SaveFollowsReference(env, builders);
    ChainSucceedsIff(env, bs, 0);
    forall j | 0 <= j < |bs|
      ensures st.builders[j].mutation.done <==> IsDone(env, bs, j)
      ensures st.builders[j].mutation.done ==> DoneNode(env, bs, st, j)
    {
      DoneIff(env, bs, j, Start(env, builders), st);
    }
  }

  /** Row j and node j belong together and the mutation points at its node's key. */
  ghost predicate DoneNode(env: Env, bs: seq<Builder>, st: State, j: nat)
    requires j < |bs| && Sized(st, |bs|)
  {
    && env.batch(Batch(bs)).Inserted?
    && DescentOf(bs[j]).Arrived?
    && st.builders[j].mutation.id == Some(j)
    && var key := env.batch(Batch(bs)).ids(j);
       st.nodes[j] == Some(Rows.NodeOf(DescentOf(bs[j]).passed).(id := if key.Some? then key.value else 0))
  }

  /** The batch went in and every later builder's exit hooks let the success out. */
  ghost predicate IsDone(env: Env, bs: seq<Builder>, j: nat) {
    && AllReach(env, bs, 0)
    && BatchOutcome(env, bs).Ok?
    && forall l :: j < l < |bs| ==> LetsSuccessOut(bs[l])
  }

  lemma DoneIff(env: Env, bs: seq<Builder>, j: nat, st0: State, st: State)
    requires j < |bs| && AllProper(bs) && !bs[j].mutation.done
    requires Sized(st0, |bs|) && Sized(st, |bs|) && Effect(env, bs, 0, st0, st)
    ensures st.builders[j].mutation.done <==> IsDone(env, bs, j)
    ensures st.builders[j].mutation.done ==> DoneNode(env, bs, st, j)
  {
    assert AllReach(env, bs, 0) <==> ReachedBefore(env, bs, 0, j + 1) && AllReach(env, bs, j + 1);
    if ReachedBefore(env, bs, 0, j + 1) {
      assert Settled(env, bs, 0, j, st);
      SettledIsDoneIff(env, bs, j, st);
    } else {
      assert Untouched(bs, j, st);
    }
  }

  lemma SettledIsDoneIff(env: Env, bs: seq<Builder>, j: nat, st: State)
    requires j < |bs| && AllProper(bs) && !bs[j].mutation.done && Sized(st, |bs|)
    requires ReachedBefore(env, bs, 0, j + 1) && Settled(env, bs, 0, j, st)
    ensures st.builders[j].mutation.done <==> IsDone(env, bs, j)
    ensures st.builders[j].mutation.done ==> DoneNode(env, bs, st, j)
  {
    RestSucceedsIff(env, bs, j);
    if st.builders[j].mutation.done {
      assert OutcomeFrom(env, bs, j + 1).Ok? && IsDone(env, bs, j);
      assert KeyOf(env, bs, 0, j) == env.batch(Batch(bs)).ids(j);
    }
  }

  /** The rest of the chain after a builder that was reached succeeds iff the builder ends done. */
  lemma RestSucceedsIff(env: Env, bs: seq<Builder>, j: nat)
    requires j < |bs| && AllProper(bs) && ReachedBefore(env, bs, 0, j + 1)
    ensures OutcomeFrom(env, bs, j + 1).Ok? <==> IsDone(env, bs, j)
  {
    ChainSucceedsIff(env, bs, j + 1);
    assert AllReach(env, bs, 0) <==> AllReach(env, bs, j + 1);
  }

  /**
   Builder l is called and its hooks report success, although its own link was not reached or did
   not succeed.
   */
  ghost predicate Overclaims(env: Env, bs: seq<Builder>, l: nat)
    requires l < |bs|
  {
    && ReachedBefore(env, bs, 0, l)
    && OutcomeFrom(env, bs, l).Ok?
    && !(Reaches(env, bs[l]) && OutcomeFrom(env, bs, l + 1).Ok?)
  }

  ghost predicate DoneAreSuffix(bs: seq<Builder>) {
    forall j, l :: 0 <= j < l < |bs| && bs[j].mutation.done ==> bs[l].mutation.done
  }

  /** Builder j's link is reached and the rest of the chain succeeds. */
  ghost predicate LinkSucceeds(env: Env, bs: seq<Builder>, j: nat)
    requires j < |bs|
  {
    ReachedBefore(env, bs, 0, j + 1) && OutcomeFrom(env, bs, j + 1).Ok?
  }

  /** For any hooks: a builder ends done iff its link succeeds. */
  lemma DoneIffLinkSucceeds(env: Env, bs: seq<Builder>, j: nat, st0: State, st: State)
    requires j < |bs| && !bs[j].mutation.done && Sized(st0, |bs|) && Sized(st, |bs|) && Effect(env, bs, 0, st0, st)
    ensures st.builders[j].mutation.done <==> LinkSucceeds(env, bs, j)
  {
    if ReachedBefore(env, bs, 0, j + 1) {
      assert Settled(env, bs, 0, j, st);
    } else {
      assert Untouched(bs, j, st);
    }
  }

  lemma OverclaimsIff(env: Env, bs: seq<Builder>, l: nat)
    requires 0 < l < |bs|
    ensures Overclaims(env, bs, l) <==> LinkSucceeds(env, bs, l - 1) && !LinkSucceeds(env, bs, l)
  {
    assert ReachedBefore(env, bs, 0, l + 1) <==> ReachedBefore(env, bs, 0, l) && Reaches(env, bs[l]);
  }

  /** For any hooks: the builders marked done are a suffix iff no called builder overclaims. */
  lemma DoneIsSuffixIff(env: Env, builders: seq<Builder>)
    requires builders != [] && Undone(builders)
    ensures var bs := Begun(env, builders);
            DoneAreSuffix(SaveRun(env, builders).0.builders) <==>
              forall l :: 0 < l < |bs| ==> !Overclaims(env, bs, l)
  {
    var bs, st := Begun(env, builders), SaveRun(env, builders).0;
    SaveFollowsReference(env, builders);
    forall j | 0 <= j < |bs|
      ensures st.builders[j].mutation.done <==> LinkSucceeds(env, bs, j)
    {
      DoneIffLinkSucceeds(env, bs, j, Start(env, builders), st);
    }
    SuffixIff(env, bs, st.builders);
  }

  lemma SuffixIff(env: Env, bs: seq<Builder>, after: seq<Builder>)
    requires |after| == |bs|
    requires forall j :: 0 <= j < |bs| ==> (after[j].mutation.done <==> LinkSucceeds(env, bs, j))
    ensures DoneAreSuffix(after) <==> forall l :: 0 < l < |bs| ==> !Overclaims(env, bs, l)
  {
    if DoneAreSuffix(after) {
      forall l | 0 < l < |bs|
        ensures !Overclaims(env, bs, l)
      {
        OverclaimsIff(env, bs, l);
        assert after[l - 1].mutation.done ==> after[l].mutation.done;
      }
    }
    if forall l :: 0 < l < |bs| ==> !Overclaims(env, bs, l) {
      forall j, l | 0 <= j < l < |bs| && after[j].mutation.done
        ensures after[l].mutation.done
      {
        DoneGoesOn(env, bs, after, j, l);
      }
    }
  }

  lemma {:induction false} DoneGoesOn(env: Env, bs: seq<Builder>, after: seq<Builder>, j: nat, l: nat)
    requires |after| == |bs| && j <= l < |bs| && after[j].mutation.done
    requires forall k :: 0 <= k < |bs| ==> (after[k].mutation.done <==> LinkSucceeds(env, bs, k))
    requires forall k :: 0 < k < |bs| ==> !Overclaims(env, bs, k)
    ensures after[l].mutation.done
    decreases l - j
  {
    if j < l {
      OverclaimsIff(env, bs, j + 1);
      DoneGoesOn(env, bs, after, j + 1, l);
    }
  }

  // ------------------------------------------------------------------ what was checked and what was inserted

  /** A hook that always hands on the mutation it was given, edited or not. */
  ghost predicate NeverSubstitutes(h: Hook) {
    forall f :: h.enter(f).Forward? ==> !h.enter(f).substitute
  }

  /** A builder called with its own mutation inserts exactly the fields it checked. */
  lemma {:induction false} OwnMutationIsTheOneChecked(hooks: seq<Hook>, k: nat, own: bool, mine: Fields, f: Fields)
    requires k <= |hooks| && (own ==> mine == f)
    ensures var d := DescentFrom(hooks, k, own, mine, f);
            d.Arrived? ==>
              && (d.own ==> d.checked == d.passed)
              && (own && (forall l :: k <= l < |hooks| ==> NeverSubstitutes(hooks[l])) ==> d.own)
    decreases |hooks| - k
  {
    if k < |hooks| && hooks[k].enter(f).Forward? {
      var g, still := hooks[k].enter(f).fields, own && !hooks[k].enter(f).substitute;
      OwnMutationIsTheOneChecked(hooks, k + 1, still, if still then g else mine, g);
      if own && (forall l :: k <= l < |hooks| ==> NeverSubstitutes(hooks[l])) {
        assert NeverSubstitutes(hooks[k]);
      }
    }
  }

  /**
   If no hook substitutes a mutation, every inserted row has all required columns and passes the
   validators, although the bulk save drops the errors of `defaults`.
   */
  lemma InsertedRowsAreValid(env: Env, v: Validators, builders: seq<Builder>, j: nat)
    requires j < |builders| && ChecksWith(env, v)
    requires forall l, k :: 0 <= l < |builders| && 0 <= k < |builders[l].hooks| ==>
                              NeverSubstitutes(builders[l].hooks[k])
    ensures var bs := Begun(env, builders);
            var inserted := Collect(SaveRun(env, builders).0.trace, BatchOf);
            inserted == [] || (inserted == [Batch(bs)] && RowIsValid(v, bs[j]))
  {
    var bs := Begun(env, builders);
    BatchInsertedExactlyOnce(env, builders);
    if AllReach(env, bs, 0) {
      assert Reaches(env, bs[j]);
      ReachedRowIsValid(env, v, bs[j]);
    }
  }

  /** The row of a builder has all required columns, with valid values. */
  ghost predicate RowIsValid(v: Validators, b: Builder) {
    && DescentOf(b).Arrived?
    && RowOf(b) == Some(Rows.SpecOf(DescentOf(b).passed))
    && HasAllRequired(DescentOf(b).passed)
    && ValidatorsPass(v, DescentOf(b).passed)
  }

  lemma ReachedRowIsValid(env: Env, v: Validators, b: Builder)
    requires ChecksWith(env, v) && Reaches(env, b)
    requires forall k :: 0 <= k < |b.hooks| ==> NeverSubstitutes(b.hooks[k])
    ensures RowIsValid(v, b)
  {
    OwnMutationIsTheOneChecked(b.hooks, 0, true, b.mutation.fields, b.mutation.fields);
  }

  predicate IsValidated(f: Field) {
    f.Name? || f.Platform? || f.Type? || f.Status? || f.SessionWindowStatus?
  }

  /** The second field set is complete, and its validated fields are those of the first. */
  ghost predicate Covers(checked: Fields, passed: Fields) {
    && HasAllRequired(passed)
    && forall f :: IsValidated(f) && f in passed ==> f in checked && checked[f] == passed[f]
  }

  /**
   Whether or not hooks substitute: passing the check guarantees a valid row under all validators
   iff no field set with those fields can pass at all, or the mutation the builder adopts is
   complete and agrees with the checked one on every validated field it has.
   */
  lemma CheckCoversRowIff(b: Builder)
    requires DescentOf(b).Arrived?
    ensures var d := DescentOf(b);
            (forall v :: AccountBuilder.Check(v, d.checked).None? ==> RowIsValid(v, b)) <==>
              !HasAllRequired(d.checked) || Covers(d.checked, d.passed)
  {
    var d := DescentOf(b);
    if HasAllRequired(d.checked) && !Covers(d.checked, d.passed) {
      var v := UncoveredFails(d.checked, d.passed);
      assert !RowIsValid(v, b);
    } else if HasAllRequired(d.checked) {
      forall v | AccountBuilder.Check(v, d.checked).None?
        ensures RowIsValid(v, b)
      {
        CoveredPasses(v, d.checked, d.passed);
      }
    }
  }

  /** Validators that let the first field set through although the second is not valid. */
  lemma UncoveredFails(checked: Fields, passed: Fields) returns (v: Validators)
    requires HasAllRequired(checked) && !Covers(checked, passed)
    ensures AccountBuilder.Check(v, checked).None?
    ensures !(HasAllRequired(passed) && ValidatorsPass(v, passed))
  {
    v := AcceptsOnly(checked);
    AcceptsOwn(checked);
    if HasAllRequired(passed) {
      var f :| IsValidated(f) && f in passed && !(f in checked && checked[f] == passed[f]);
      RejectsOthers(checked, passed, f);
    }
  }

  lemma AcceptsOwn(m: Fields)
    ensures ValidatorsPass(AcceptsOnly(m), m)
  {
    assert forall f :: f in m && IsValidated(f) ==> KindOf(m[f]) == GoType(f);
  }

  /** The validators that accept exactly the values of one field set. */
  function AcceptsOnly(m: Fields): Validators {
    Validators(s => Holds(m, Name, s), s => Holds(m, Platform, s), s => Holds(m, Type, s),
               s => Holds(m, Status, s), s => Holds(m, SessionWindowStatus, s))
  }

  predicate Holds(m: Fields, f: Field, s: string) {
    f in m && m[f] == Text(s)
  }

  lemma RejectsOthers(m: Fields, other: Fields, f: Field)
    requires IsValidated(f) && f in other && !(f in m && m[f] == other[f])
    ensures !ValidatorsPass(AcceptsOnly(m), other)
  {
    assert KindOf(other[f]) == GoType(f);
  }

  lemma CoveredPasses(v: Validators, checked: Fields, passed: Fields)
    requires ValidatorsPass(v, checked) && Covers(checked, passed)
    ensures ValidatorsPass(v, passed)
  {
    assert forall f :: IsValidated(f) && f in passed ==> f in checked && TextOf(checked, f) == TextOf(passed, f);
  }

  /** A hook that puts an empty mutation in place of the one it was given. */
  const SUBSTITUTE_EMPTY: Hook := Hook(_ => Forward(map[], true), (_, out) => out)

  /** A hook that ends the chain at once and reports success. */
  const SKIP: Hook := Hook(_ => Return(Ok), (_, out) => out)

  function FreshBuilder(hooks: seq<Hook>, fields: Fields): Builder {
    Builder(hooks, Mutation(fields, None, false))
  }

  /**
   Without that condition the check protects nothing: it looks at the builder's mutation before
   the builder adopts the one it was called with, so one substituting hook makes any mutation
   that passes its check insert a row without a single column.
   */
  lemma SubstitutedRowIsNotChecked(env: Env, fields: Fields)
    requires env.check(AfterDefaults(env.defaults, fields)).None?
    ensures Proper(SUBSTITUTE_EMPTY)
    ensures Collect(SaveRun(env, [FreshBuilder([SUBSTITUTE_EMPTY], fields)]).0.trace, BatchOf) ==
            [[Some(Rows.SpecOf(map[]))]]
    ensures Rows.SpecOf(map[]).columns == map[] && !HasAllRequired(map[])
  {
    var builders := [FreshBuilder([SUBSTITUTE_EMPTY], fields)];
    var bs := Begun(env, builders);
    assert DescentFrom(bs[0].hooks, 1, false, bs[0].mutation.fields, map[]).Arrived?;
    assert Reaches(env, bs[0]);
    BatchInsertedExactlyOnce(env, builders);
    assert Batch(bs) == [Some(Rows.SpecOf(map[]))];
    assert Required(Name);
  }

  /**
   A hook that is not proper breaks the suffix: when the second of two builders' hooks reports
   success without calling next, the save succeeds with the first builder marked done, the second
   one not, and nothing inserted.
   */
  lemma SkippingHookBreaksSuffix(env: Env, fields: Fields)
    requires env.check(AfterDefaults(env.defaults, fields)).None?
    ensures !Proper(SKIP)
    ensures var (st, out) := SaveRun(env, [FreshBuilder([], fields), FreshBuilder([SKIP], fields)]);
            && out.Ok?
            && st.builders[0].mutation.done && !st.builders[1].mutation.done
            && Collect(st.trace, BatchOf) == []
  {
    var builders := [FreshBuilder([], fields), FreshBuilder([SKIP], fields)];
    var bs := Begun(env, builders);
    var (st, out) := SaveRun(env, builders);
    assert SKIP.enter(fields).Return?;
    SaveFollowsReference(env, builders);
    BatchInsertedExactlyOnce(env, builders);
    assert DescentOf(bs[0]).Arrived? && DescentOf(bs[1]).Stopped?;
    assert Reaches(env, bs[0]) && !Reaches(env, bs[1]);
    assert OutcomeFrom(env, bs, 1).Ok?;
    assert ReachedBefore(env, bs, 0, 1) && Settled(env, bs, 0, 0, st);
    assert !ReachedBefore(env, bs, 0, 2) && Untouched(bs, 1, st);
  }

  // ------------------------------------------------------------------ saves without hooks

  ghost predicate WithoutHooks(builders: seq<Builder>) {
    forall j :: 0 <= j < |builders| ==> builders[j].hooks == []
  }

  /** The fields a builder ends with: those set and, for the rest, each field's own default. */
  ghost predicate EndsWith(d: Defaults, m: Fields, after: Fields) {
    AccountFields.Completed(d, m, after)
  }

  /** The fields a builder ends with have all that is required, with valid values. */
  ghost predicate Insertable(d: Defaults, v: Validators, m: Fields) {
    exists after: Fields :: EndsWith(d, m, after) && HasAllRequired(after) && ValidatorsPass(v, after)
  }

  /** A row has exactly the columns the builder ends with. */
  ghost predicate RowFor(d: Defaults, m: Fields, row: Option<Rows.Spec>) {
    row.Some? && exists after: Fields :: EndsWith(d, m, after) && AccountFields.RowHolds(after, row.value)
  }

  /**
   Without hooks: the batch is inserted iff every builder ends with all that is required, and its
   rows have exactly the columns the builders end with, in builder order.
   */
  lemma PlainSaveInserts(env: Env, v: Validators, builders: seq<Builder>)
    requires builders != [] && WithoutHooks(builders) && ChecksWith(env, v)
    ensures var inserted := Collect(SaveRun(env, builders).0.trace, BatchOf);
            if forall j :: 0 <= j < |builders| ==> Insertable(env.defaults, v, builders[j].mutation.fields)
            then |inserted| == 1 && |inserted[0]| == |builders| &&
                 forall j :: 0 <= j < |builders| ==>
                   RowFor(env.defaults, builders[j].mutation.fields, inserted[0][j])
            else inserted == []
  {
    var bs := Begun(env, builders);
    BatchInsertedExactlyOnce(env, builders);
    forall j | 0 <= j < |builders|
      ensures Reaches(env, bs[j]) <==> Insertable(env.defaults, v, builders[j].mutation.fields)
      ensures Reaches(env, bs[j]) ==> RowFor(env.defaults, builders[j].mutation.fields, RowOf(bs[j]))
    {
      PlainBuilderReaches(env, v, builders[j].mutation.fields, bs[j]);
    }
  }

  lemma PlainBuilderReaches(env: Env, v: Validators, m: Fields, b: Builder)
    requires ChecksWith(env, v) && b.hooks == [] && b.mutation.fields == AfterDefaults(env.defaults, m)
    ensures Reaches(env, b) <==> Insertable(env.defaults, v, m)
    ensures Reaches(env, b) ==> RowFor(env.defaults, m, RowOf(b))
  {
    var after := AfterDefaults(env.defaults, m);
    DroppedDefaultsErrorIsCaught(env.defaults, v, m);
    assert Reaches(env, b) <==> AccountBuilder.Check(v, after).None?;
    if Reaches(env, b) {
      AccountFields.DefaultsComplete(env.defaults, m);
      AccountFields.SpecHolds(after);
      assert EndsWith(env.defaults, m, after);
    }
    if Insertable(env.defaults, v, m) {
      var a: Fields :| EndsWith(env.defaults, m, a) && HasAllRequired(a) && ValidatorsPass(v, a);
      CompletedIsUnique(env.defaults, m, a);
    }
  }

  lemma CompletedIsUnique(d: Defaults, m: Fields, a: Fields)
    requires EndsWith(d, m, a)
    ensures a == AfterDefaults(d, m)
  {
    AccountFields.DefaultsErrorNames(d, m);
    AccountFields.DefaultsComplete(d, m);
    AccountFields.SameWhenCompleted(d, m, a, AfterDefaults(d, m));
  }
}
